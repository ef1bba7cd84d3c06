/** What stays exactly as it is: states that come back unchanged, and updates that repeat themselves. */
module ProjectStability {
  import opened Wrappers
  import opened GoStrings
  import opened MapRange
  import opened ProjectKeys
  import opened ProjectCodec
  import opened ProjectReading
  import opened ProjectRoundTrip
  import opened ProjectRawTrip
  import opened ProjectSettling

  // ---------------------------------------------------------------- States that come back unchanged

  ghost predicate DotFreeExtra(extra: map<string, string>) {
    forall k :: k in extra ==> '.' !in k
  }

  lemma ReadExtraIsDotFree(id: string, project: RemoteProject, sourceOrder: seq<string>, extraOrder: seq<string>,
                           after: ProjectState)
    requires ReadsAs(id, project, sourceOrder, extraOrder, after)
    ensures DotFreeExtra(after.extraConfig)
  {
    forall e | e in after.extraConfig ensures '.' !in e {
      var l := ExtraSource(Unnamed(project.config), extraOrder, e);
      ReplaceRemoves(l, '.', '/');
    }
  }

  lemma DotFreePreservedIsSame(before: map<string, string>, after: map<string, string>)
    requires DotFreeExtra(before)
    ensures ExtraPreserved(before, after) <==> before == after
  {
    forall k | k in before ensures Replace(k, '.', '/') == k {
      ReplaceNothing(k, '.', '/');
    }
    ExtraPreservedIsSame(before, after);
  }

  /** A state comes back as it was, save for the project's own name, exactly when it is storable and no
      key of `extra_config` has a dot. */
  lemma StateUnchangedExactly(state: ProjectState, project: RemoteProject, order: seq<string>,
                              sourceOrder: seq<string>, extraOrder: seq<string>, after: ProjectState)
    requires state.Complete() && Trip(state, project, order, sourceOrder, extraOrder, after)
    ensures after.sources == state.sources && after.attributes == state.attributes[Name := project.name] &&
            after.extraConfig == state.extraConfig
            <==> Storable(state) && DotFreeExtra(state.extraConfig)
  {
    ReadExtraIsDotFree(state.id, project, sourceOrder, extraOrder, after);
    StateRoundTripExactly(state, project, order, sourceOrder, extraOrder, after);
    if DotFreeExtra(state.extraConfig) {
      DotFreePreservedIsSame(state.extraConfig, after.extraConfig);
    }
  }

  lemma SingleExtraPreserved(k: string, v: string, after: map<string, string>)
    requires ExtraPreserved(map[k := v], after)
    ensures after == map[Replace(k, '.', '/') := v]
  {
    var before := map[k := v];
    assert k in before;
    forall e | e in after ensures e == Replace(k, '.', '/') {
      var j :| j in before && Replace(j, '.', '/') == e;
    }
    SameMap(after, map[Replace(k, '.', '/') := v]);
  }

  lemma LabelStaysExtra()
    ensures StaysExtra("project.label", 0)
    ensures Replace("project.label", '/', '.') == "project.label"
    ensures Replace("project.label", '.', '/') == "project/label" != "project.label"
  {
    assert "project.label"[0] != SOURCE_PREFIX[0];
    forall a ensures ConfigKey(a) != "project.label" {
      assert |ConfigKey(a)| != |"project.label"|;
    }
    ReplaceNothing("project.label", '/', '.');
    assert "project/label"[7] != "project.label"[7];
  }

  /** A project without sources and with one extra property. */
  function LabelledState(key: string): ProjectState {
    ProjectState("example",
                 map[Name := "example", Description := "", FileCopierPlugin := "", NodeExecutorPlugin := "",
                     SshAuthenticationType := "", SshKeyStoragePath := "", SshKeyFilePath := ""],
                 [], map[key := "Terraform Example"], "")
  }

  lemma LabelledIsStorable(key: string)
    requires StaysExtra(Replace(key, '/', '.'), 0)
    ensures LabelledState(key).Complete() && Storable(LabelledState(key))
  {
    forall a: Attribute ensures a in LabelledState(key).attributes {
      match a
      case Name =>
      case Description =>
      case FileCopierPlugin =>
      case NodeExecutorPlugin =>
      case SshAuthenticationType =>
      case SshKeyStoragePath =>
      case SshKeyFilePath =>
    }
  }

  /** On every trip the state comes back with the given extra entries. */
  ghost predicate EveryTripShows(state: ProjectState, extra: map<string, string>)
    requires state.Complete()
  {
    forall project, order, sourceOrder, extraOrder, after ::
      Trip(state, project, order, sourceOrder, extraOrder, after) ==> after.extraConfig == extra
  }

  lemma OnlyExtraComesBack(state: ProjectState, key: string, v: string)
    requires state.Complete() && Storable(state) && state.extraConfig == map[key := v]
    ensures EveryTripShows(state, map[Replace(key, '.', '/') := v])
  {
    forall project, order, sourceOrder, extraOrder, after | Trip(state, project, order, sourceOrder, extraOrder, after)
      ensures after.extraConfig == map[Replace(key, '.', '/') := v]
    {
      StateRoundTripExactly(state, project, order, sourceOrder, extraOrder, after);
      SingleExtraPreserved(key, v, after.extraConfig);
    }
  }

  /** With a dot in the key the project is storable, yet on every trip it comes back with a slash for the
      dot, so that the state that was applied is not the one that is read. */
  lemma DottedKeyComesBackSlashed(state: ProjectState)
    requires state == LabelledState("project.label")
    ensures state.Complete() && Storable(state)
    ensures EveryTripShows(state, map["project/label" := "Terraform Example"])
    ensures state.extraConfig != map["project/label" := "Terraform Example"]
  {
    LabelStaysExtra();
    LabelledIsStorable("project.label");
    OnlyExtraComesBack(state, "project.label", "Terraform Example");
    assert "project.label" in state.extraConfig;
  }

  // ---------------------------------------------------------------- Updating twice

  /** No two extra keys of a state that was read turn into one property. */
  lemma ReadExtraStaysApart(state: ProjectState, j: string, k: string)
    requires DotFreeExtra(state.extraConfig) && j in state.extraConfig && k in state.extraConfig
    requires Replace(j, '/', '.') == Replace(k, '/', '.')
    ensures j == k
  {
    ReplaceBack(j, '/', '.');
    ReplaceBack(k, '/', '.');
  }

  /** Whatever was read, the update that follows sends one and the same map for every order. */
  lemma ReadStateUpdatesAlike(project: RemoteProject, sourceOrder: seq<string>, extraOrder: seq<string>,
                              state: ProjectState, o1: seq<string>, o2: seq<string>)
    requires ReadsAs(state.id, project, sourceOrder, extraOrder, state)
    requires IsOrder(o1, state.extraConfig.Keys) && IsOrder(o2, state.extraConfig.Keys)
    ensures UpdateMap(state, o1) == UpdateMap(state, o2)
  {
    ReadExtraIsDotFree(state.id, project, sourceOrder, extraOrder, state);
    forall j, k | j in Visible(state) && k in Visible(state) && SlashesToDots(j) == SlashesToDots(k) ensures j == k {
      ReadExtraStaysApart(state, j, k);
    }
    WriteOrderFreeExactly(state);
    assert SameUpdateMap(state, o1, o2);
  }

  /** The properties that the extra keys of a state turn into, without those of named attributes. */
  ghost function RawExtras(state: ProjectState): set<string> {
    set k | k in state.extraConfig && !IsNamed(Replace(k, '/', '.')) :: Replace(k, '/', '.')
  }

  /** No extra key turns into the property of an unset named attribute, unless it is one with a value
      for an attribute other than the name. */
  ghost predicate NamesStay(state: ProjectState) {
    forall k, a :: k in state.extraConfig && a in state.attributes && ConfigKey(a) == Replace(k, '/', '.') ==>
                     state.attributes[a] != "" || (a != Name && state.extraConfig[k] != "")
  }

  /** Extra keys that turn into source properties are canonically spelled and continue the numbering of
      the sources without gaps, each further index with its type. */
  ghost predicate SourcesContinue(state: ProjectState) {
    var raws := RawExtras(state);
    var indices := UpTo(|state.sources|) + TouchedBy(raws);
    && CanonicalSet(raws)
    && indices == UpTo(|indices|)
    && (forall i :: i in indices && i > |state.sources| ==> SourceKey(TypeOf(i)) in raws)
  }

  ghost predicate CanonicalSet(raws: set<string>) {
    forall r :: r in raws && SlotOf(r).Some? ==> r == SourceKey(SlotOf(r).value)
  }

  /** The states whose update, read back and sent again, repeats itself. */
  ghost predicate Repeats(state: ProjectState) {
    NamesStay(state) && SourcesContinue(state)
  }

  lemma RawExtrasExactly(state: ProjectState, order: seq<string>, r: string)
    requires IsOrder(order, state.extraConfig.Keys)
    ensures r in RawExtras(state) <==> r in ExtraPart(state, order) && !IsNamed(r)
  {
    if r in RawExtras(state) {
      var k :| k in state.extraConfig && Replace(k, '/', '.') == r;
      ExtraPartCovers(state, order, k);
    }
    if r in ExtraPart(state, order) && !IsNamed(r) {
      var k := ExtraPartSource(state, order, r);
    }
  }

  /** What a reader finds besides named attributes: source properties and raw extras. */
  lemma WrittenKeysExactly(state: ProjectState, order: seq<string>, k: string)
    requires state.Complete() && IsOrder(order, state.extraConfig.Keys)
    ensures k in WrittenRest(state, order) <==> k in SourcePart(state.sources) || k in RawExtras(state)
  {
    WrittenRestExactly(state, order, k);
    RawExtrasExactly(state, order, k);
    WriterLayers(state, order, k);
  }

  lemma WrittenIndicesExactly(state: ProjectState, order: seq<string>)
    requires state.Complete() && IsOrder(order, state.extraConfig.Keys) && DotFreeConfigs(state.sources)
    ensures Touched(WrittenRest(state, order)) == UpTo(|state.sources|) + TouchedBy(RawExtras(state))
  {
    var rest, raws := WrittenRest(state, order), RawExtras(state);
    forall i | i in Touched(rest) ensures i in UpTo(|state.sources|) + TouchedBy(raws) {
      var k :| k in rest && RecordIndex(k) == Some(i);
      WrittenKeysExactly(state, order, k);
      if k in SourcePart(state.sources) {
        var s := SourceKeyIsConsumed(state.sources, k);
      }
    }
    forall i | i in UpTo(|state.sources|) ensures i in Touched(rest) {
      TypeKeyIsRead(state, order, i);
    }
    forall i | i in TouchedBy(raws) ensures i in Touched(rest) {
      var k :| k in raws && RecordIndex(k) == Some(i);
      WrittenKeysExactly(state, order, k);
    }
  }

  lemma WrittenCanonicalExactly(state: ProjectState, order: seq<string>)
    requires state.Complete() && IsOrder(order, state.extraConfig.Keys) && DotFreeConfigs(state.sources)
    ensures CanonicalKeys(WrittenRest(state, order)) <==> CanonicalSet(RawExtras(state))
  {
    var rest := WrittenRest(state, order);
    forall k ensures k in rest <==> k in SourcePart(state.sources) || k in RawExtras(state) {
      WrittenKeysExactly(state, order, k);
    }
    forall k | k in SourcePart(state.sources) ensures SlotOf(k).Some? && k == SourceKey(SlotOf(k).value) {
      var s := SourceKeyIsConsumed(state.sources, k);
    }
  }

  lemma TypeKeyWrittenExactly(state: ProjectState, order: seq<string>, i: int)
    requires state.Complete() && IsOrder(order, state.extraConfig.Keys) && i >= 1
    ensures SourceKey(TypeOf(i)) in WrittenRest(state, order) <==>
            i <= |state.sources| || SourceKey(TypeOf(i)) in RawExtras(state)
  {
    var k := SourceKey(TypeOf(i));
    WrittenKeysExactly(state, order, k);
    if k in SourcePart(state.sources) {
      var s := SourcePartSlot(state.sources, k);
      SourceKeyInjective(s, TypeOf(i));
    }
    if i <= |state.sources| {
      SourcePartCovers(state.sources, TypeOf(i));
    }
  }

  lemma WrittenNumberingExactly(state: ProjectState, order: seq<string>)
    requires state.Complete() && IsOrder(order, state.extraConfig.Keys) && DotFreeConfigs(state.sources)
    ensures var raws := RawExtras(state);
            var indices := UpTo(|state.sources|) + TouchedBy(raws);
            CompleteNumbering(WrittenRest(state, order)) <==>
            indices == UpTo(|indices|) &&
            forall i :: i in indices && i > |state.sources| ==> SourceKey(TypeOf(i)) in raws
  {
    WrittenIndicesExactly(state, order);
    forall i: int | i >= 1
      ensures SourceKey(TypeOf(i)) in WrittenRest(state, order) <==>
              i <= |state.sources| || SourceKey(TypeOf(i)) in RawExtras(state)
    {
      TypeKeyWrittenExactly(state, order, i);
    }
  }

  lemma WrittenLeftoverIsSlashFree(state: ProjectState, order: seq<string>)
    requires state.Complete() && IsOrder(order, state.extraConfig.Keys) && DotFreeConfigs(state.sources)
    ensures SlashFreeLeftover(WrittenRest(state, order))
  {
    forall k | k in Leftover(WrittenRest(state, order)) ensures '/' !in k {
      WrittenRestExactly(state, order, k);
      if k in SourcePart(state.sources) {
        var s := SourceKeyIsConsumed(state.sources, k);
      } else {
        var e := ExtraPartSource(state, order, k);
      }
    }
  }

  /** The property of one named attribute after an update. */
  lemma WrittenNameExactly(state: ProjectState, order: seq<string>, a: Attribute)
    requires state.Complete() && IsOrder(order, state.extraConfig.Keys)
    ensures var u, k := UpdateMap(state, order), ConfigKey(a);
            if state.attributes[a] != "" then k in u && u[k] == state.attributes[a]
            else (k in u <==> k in ExtraPart(state, order)) && (k in u ==> u[k] == ExtraPart(state, order)[k])
  {
    AttributeKeys();
    WriterLayers(state, order, ConfigKey(a));
    if ConfigKey(a) in SourcePart(state.sources) {
      var s := SourcePartSlot(state.sources, ConfigKey(a));
    }
  }

  lemma WrittenNamesStay(state: ProjectState, order: seq<string>, again: RemoteProject)
    requires state.Complete() && IsOrder(order, state.extraConfig.Keys)
    requires again.config == UpdateMap(state, order) && again.name == state.attributes[Name]
    requires NamesStay(state)
    ensures NamedValues(again)
  {
    forall a | ConfigKey(a) in again.config
      ensures again.config[ConfigKey(a)] != "" && (a == Name ==> again.config[ConfigKey(a)] == again.name)
    {
      WrittenNameExactly(state, order, a);
      if state.attributes[a] == "" {
        var e := ExtraPartSource(state, order, ConfigKey(a));
      }
    }
    WrittenNameExactly(state, order, Name);
  }

  lemma NamesStayWhenWritten(state: ProjectState, order: seq<string>, again: RemoteProject)
    requires state.Complete() && IsOrder(order, state.extraConfig.Keys) && DotFreeExtra(state.extraConfig)
    requires again.config == UpdateMap(state, order) && again.name == state.attributes[Name]
    requires NamedValues(again)
    ensures NamesStay(state)
  {
    forall k, a | k in state.extraConfig && a in state.attributes && ConfigKey(a) == Replace(k, '/', '.')
      ensures state.attributes[a] != "" || (a != Name && state.extraConfig[k] != "")
    {
      WrittenNameExactly(state, order, a);
      ExtraPartCovers(state, order, k);
      var e := ExtraPartSource(state, order, ConfigKey(a));
      ReadExtraStaysApart(state, e, k);
    }
  }

  /** What an update of a state that was read leaves on the server is reproducible exactly when the
      state repeats. */
  lemma RepeatsExactly(project: RemoteProject, sourceOrder: seq<string>, extraOrder: seq<string>, state: ProjectState,
                       order: seq<string>, again: RemoteProject)
    requires |project.config| <= MAX_INT
    requires ReadsAs(state.id, project, sourceOrder, extraOrder, state) && IsOrder(order, state.extraConfig.Keys)
    requires again == project.(config := UpdateMap(state, order))
    ensures Reproducible(again) <==> Repeats(state)
  {
    ReadConfigsAreDotFree(project, sourceOrder, extraOrder, state);
    ReadExtraIsDotFree(state.id, project, sourceOrder, extraOrder, state);
    FewSources(project);
    forall a ensures a in state.attributes { ReadAttribute(project, a); }
    ReadAttribute(project, Name);
    assert Unnamed(again.config) == WrittenRest(state, order);
    WrittenLeftoverIsSlashFree(state, order);
    WrittenCanonicalExactly(state, order);
    WrittenNumberingExactly(state, order);
    if NamesStay(state) {
      WrittenNamesStay(state, order, again);
    }
    if NamedValues(again) {
      NamesStayWhenWritten(state, order, again);
    }
  }

  /** Refresh and apply, twice: the second update sends the map of the first exactly when the state of
      the first refresh repeats, and that is so for every settled project. */
  lemma SecondUpdateExactly(
    project: RemoteProject, sourceOrder: seq<string>, extraOrder: seq<string>, state: ProjectState,
    order: seq<string>, again: RemoteProject, sourceOrder2: seq<string>, extraOrder2: seq<string>, after: ProjectState,
    order2: seq<string>)
    requires |project.config| <= MAX_INT && |again.config| <= MAX_INT
    requires ReadsAs(state.id, project, sourceOrder, extraOrder, state) && IsOrder(order, state.extraConfig.Keys)
    requires again == project.(config := UpdateMap(state, order))
    requires ReadsAs(state.id, again, sourceOrder2, extraOrder2, after) && IsOrder(order2, after.extraConfig.Keys)
    ensures UpdateMap(after, order2) == again.config <==> Repeats(state)
    ensures Settled(project) ==> Repeats(state)
  {
    RepeatsExactly(project, sourceOrder, extraOrder, state, order, again);
    RawRoundTripExactly(again, sourceOrder2, extraOrder2, after, order2);
    RefreshApplyRefreshExactly(project, sourceOrder, extraOrder, state, order, again, sourceOrder2, extraOrder2, after);
    if Settled(project) {
      ReadStateUpdatesAlike(project, sourceOrder, extraOrder, state, order, order2);
    }
  }
}
