/** Property maps read and written back, and how quickly that settles. */
module ProjectRawTrip {
  import opened Wrappers
  import opened GoStrings
  import opened MapRange
  import opened ProjectKeys
  import opened ProjectCodec
  import opened ProjectReading
  import opened ProjectRoundTrip

  // ---------------------------------------------------------------- What a read state holds

  lemma ReadAttribute(project: RemoteProject, a: Attribute)
    ensures NamedAttributes(project)[a] == if a == Name then project.name else AttributeValue(project.config, a)
  {
  }

  /** The slots held by the sources of a read state, in terms of the slots that were read. */
  lemma ReadHolds(indices: set<int>, slots: map<Slot, string>, s: Slot)
    ensures var sources := SourcesOf(indices, slots);
            && (Holds(sources, s) <==>
                1 <= s.index <= |sources| && (s.ConfigOf? ==> ConfigOf(Ascend(indices)[s.index - 1], s.name) in slots))
            && (Holds(sources, s) && s.ConfigOf? ==>
                  ValueAt(sources, s) == slots[ConfigOf(Ascend(indices)[s.index - 1], s.name)])
            && (Holds(sources, s) && s.TypeOf? ==> ValueAt(sources, s) == KindAt(Ascend(indices)[s.index - 1], slots))
  {
  }

  lemma FewSources(project: RemoteProject)
    requires |project.config| <= MAX_INT
    ensures |Touched(Unnamed(project.config))| <= MAX_INT
    ensures |Ascend(Touched(Unnamed(project.config)))| == |Touched(Unnamed(project.config))|
  {
    var rest := Unnamed(project.config);
    OrderLength(Ascend(Touched(rest)), Touched(rest));
    ImageIsSmall(rest.Keys);
    SubsetIsSmall(rest.Keys, project.config.Keys);
    assert |rest.Keys| == |rest|;
  }

  lemma SubsetIsSmall<T>(a: set<T>, b: set<T>)
    requires a <= b
    ensures |a| <= |b|
  {
    assert |b| == |a| + |b - a| by { assert a + (b - a) == b; }
  }

  lemma {:induction false} ImageIsSmall(keys: set<string>)
    ensures |TouchedBy(keys)| <= |keys|
  {
    if keys != {} {
      var k :| k in keys;
      ImageIsSmall(keys - {k});
      TouchedByOneMore(keys - {k}, k);
      assert keys - {k} + {k} == keys;
    }
  }

  // ---------------------------------------------------------------- Properties, read and written back

  ghost predicate CompleteNumbering(rest: map<string, string>) {
    Touched(rest) == UpTo(|Touched(rest)|) && forall i :: i in Touched(rest) ==> SourceKey(TypeOf(i)) in rest
  }

  ghost predicate SlashFreeLeftover(rest: map<string, string>) {
    forall k :: k in Leftover(rest) ==> '/' !in k
  }

  ghost predicate NamedValues(project: RemoteProject) {
    && AttributeValue(project.config, Name) == project.name
    && forall a :: ConfigKey(a) in project.config ==> project.config[ConfigKey(a)] != ""
  }

  /** The projects whose property map a read followed by a write reproduces. */
  ghost predicate Reproducible(project: RemoteProject) {
    var rest := Unnamed(project.config);
    NamedValues(project) && SlashFreeLeftover(rest) && CanonicalKeys(rest) && CompleteNumbering(rest)
  }

  /** The keys that the write takes from `extra_config` are the leftover ones with dots for slashes. */
  lemma ExtraComesFromLeftover(project: RemoteProject, sourceOrder: seq<string>, extraOrder: seq<string>,
                               state: ProjectState, order: seq<string>, e: string) returns (l: string)
    requires ReadsAs(state.id, project, sourceOrder, extraOrder, state) && IsOrder(order, state.extraConfig.Keys)
    requires e in ExtraPart(state, order)
    ensures var rest := Unnamed(project.config);
            l in Leftover(rest) && Replace(l, '/', '.') == e && ExtraPart(state, order)[e] == rest[l]
  {
    var k := ExtraPartSource(state, order, e);
    l := ExtraSource(Unnamed(project.config), extraOrder, k);
    ReplaceBack(l, '.', '/');
  }

  lemma LeftoverReachesExtra(project: RemoteProject, sourceOrder: seq<string>, extraOrder: seq<string>,
                             state: ProjectState, order: seq<string>, l: string)
    requires ReadsAs(state.id, project, sourceOrder, extraOrder, state) && IsOrder(order, state.extraConfig.Keys)
    requires l in Leftover(Unnamed(project.config))
    ensures Replace(l, '/', '.') in ExtraPart(state, order)
  {
    ExtraCovers(Unnamed(project.config), extraOrder, l);
    ExtraPartCovers(state, order, Replace(l, '.', '/'));
    ReplaceBack(l, '.', '/');
  }

  lemma SlashFreeExtraExactly(project: RemoteProject, sourceOrder: seq<string>, extraOrder: seq<string>,
                              state: ProjectState, order: seq<string>, k: string)
    requires ReadsAs(state.id, project, sourceOrder, extraOrder, state) && IsOrder(order, state.extraConfig.Keys)
    requires SlashFreeLeftover(Unnamed(project.config))
    ensures k in ExtraPart(state, order) <==> k in Leftover(Unnamed(project.config))
    ensures k in ExtraPart(state, order) ==> ExtraPart(state, order)[k] == project.config[k]
  {
    if k in ExtraPart(state, order) {
      var l := ExtraComesFromLeftover(project, sourceOrder, extraOrder, state, order, k);
      ReplaceNothing(l, '/', '.');
    }
    if k in Leftover(Unnamed(project.config)) {
      LeftoverReachesExtra(project, sourceOrder, extraOrder, state, order, k);
      ReplaceNothing(k, '/', '.');
    }
  }

  lemma ConsumedKeyIsRead(rest: map<string, string>, order: seq<string>, k: string)
    requires IsOrder(order, rest.Keys) && CanonicalKeys(rest) && k in rest && SlotOf(k).Some?
    ensures SlotOf(k).value in SlotsRead(rest, order) && SlotsRead(rest, order)[SlotOf(k).value] == rest[k]
    ensures SlotOf(k).value.index in Touched(rest)
  {
    SlotCovers(rest, order, k);
    var j := SlotSource(rest, order, SlotOf(k).value);
    assert j == SourceKey(SlotOf(j).value) == k;
  }

  lemma ConsumedKeyIsWritten(project: RemoteProject, sourceOrder: seq<string>, extraOrder: seq<string>,
                             state: ProjectState, k: string)
    requires ReadsAs(state.id, project, sourceOrder, extraOrder, state)
    requires CanonicalKeys(Unnamed(project.config)) && CompleteNumbering(Unnamed(project.config))
    requires k in Unnamed(project.config) && SlotOf(k).Some?
    ensures Holds(state.sources, SlotOf(k).value) && ValueAt(state.sources, SlotOf(k).value) == project.config[k]
  {
    var rest, s := Unnamed(project.config), SlotOf(k).value;
    AscendUpTo(|Touched(rest)|);
    ConsumedKeyIsRead(rest, sourceOrder, k);
    ReadHolds(Touched(rest), SlotsRead(rest, sourceOrder), s);
    assert Ascend(Touched(rest))[s.index - 1] == s.index;
  }

  lemma HeldSlotWasRead(project: RemoteProject, sourceOrder: seq<string>, extraOrder: seq<string>,
                        state: ProjectState, s: Slot)
    requires ReadsAs(state.id, project, sourceOrder, extraOrder, state) && |project.config| <= MAX_INT
    requires CanonicalKeys(Unnamed(project.config)) && CompleteNumbering(Unnamed(project.config))
    requires Holds(state.sources, s)
    ensures SourceKey(s) in Unnamed(project.config) && SlotOf(SourceKey(s)) == Some(s)
  {
    var rest := Unnamed(project.config);
    FewSources(project);
    AscendUpTo(|Touched(rest)|);
    ReadHolds(Touched(rest), SlotsRead(rest, sourceOrder), s);
    assert s.index in Touched(rest) && Ascend(Touched(rest))[s.index - 1] == s.index;
    if s.TypeOf? {
      SourceKeyReadBack(s);
      assert s == TypeOf(s.index);
    } else {
      var k := SlotSource(rest, sourceOrder, s);
    }
  }

  lemma ReproducedNamedKey(project: RemoteProject, sourceOrder: seq<string>, extraOrder: seq<string>,
                           state: ProjectState, order: seq<string>, a: Attribute)
    requires ReadsAs(state.id, project, sourceOrder, extraOrder, state) && IsOrder(order, state.extraConfig.Keys)
    requires NamedValues(project) && SlashFreeLeftover(Unnamed(project.config))
    ensures var u := UpdateMap(state, order);
            && (ConfigKey(a) in u <==> ConfigKey(a) in project.config)
            && (ConfigKey(a) in u ==> u[ConfigKey(a)] == project.config[ConfigKey(a)])
  {
    var k := ConfigKey(a);
    AttributeKeys();
    ReadAttribute(project, a);
    WriterLayers(state, order, k);
    SlashFreeExtraExactly(project, sourceOrder, extraOrder, state, order, k);
    assert IsNamed(k);
  }

  lemma ReproducedOtherKey(project: RemoteProject, sourceOrder: seq<string>, extraOrder: seq<string>,
                           state: ProjectState, order: seq<string>, k: string)
    requires ReadsAs(state.id, project, sourceOrder, extraOrder, state) && IsOrder(order, state.extraConfig.Keys)
    requires Reproducible(project) && |project.config| <= MAX_INT && !IsNamed(k)
    ensures var u := UpdateMap(state, order);
            (k in u <==> k in project.config) && (k in u ==> u[k] == project.config[k])
  {
    AttributeKeys();
    WriterLayers(state, order, k);
    SlashFreeExtraExactly(project, sourceOrder, extraOrder, state, order, k);
    if k in SourcePart(state.sources) {
      var s := SourcePartSlot(state.sources, k);
      HeldSlotWasRead(project, sourceOrder, extraOrder, state, s);
      ConsumedKeyIsWritten(project, sourceOrder, extraOrder, state, k);
    } else if k in project.config && SlotOf(k).Some? {
      ConsumedKeyIsWritten(project, sourceOrder, extraOrder, state, k);
      SourcePartCovers(state.sources, SlotOf(k).value);
    }
  }

  lemma ReproducibleIsReproduced(project: RemoteProject, sourceOrder: seq<string>, extraOrder: seq<string>,
                                 state: ProjectState, order: seq<string>)
    requires ReadsAs(state.id, project, sourceOrder, extraOrder, state) && IsOrder(order, state.extraConfig.Keys)
    requires Reproducible(project) && |project.config| <= MAX_INT
    ensures UpdateMap(state, order) == project.config
  {
    var u := UpdateMap(state, order);
    forall k ensures (k in u <==> k in project.config) && (k in u ==> u[k] == project.config[k]) {
      if IsNamed(k) {
        AttributeKeys();
        IsNamedByTable(k);
        ReproducedNamedKey(project, sourceOrder, extraOrder, state, order, PROJECT_CONFIG_ATTRIBUTES[k]);
      } else {
        ReproducedOtherKey(project, sourceOrder, extraOrder, state, order, k);
      }
    }
    SameMap(u, project.config);
  }

  // The other direction: what a reproduced map must look like.

  lemma ReadConfigsAreDotFree(project: RemoteProject, sourceOrder: seq<string>, extraOrder: seq<string>,
                              state: ProjectState)
    requires ReadsAs(state.id, project, sourceOrder, extraOrder, state) && |project.config| <= MAX_INT
    ensures DotFreeConfigs(state.sources) && |state.sources| == |Touched(Unnamed(project.config))| <= MAX_INT
  {
    PreservedConfigs(state, project, sourceOrder, extraOrder, state);
    FewSources(project);
  }

  lemma ReproducedLeftover(project: RemoteProject, sourceOrder: seq<string>, extraOrder: seq<string>,
                           state: ProjectState, order: seq<string>, k: string)
    requires ReadsAs(state.id, project, sourceOrder, extraOrder, state) && IsOrder(order, state.extraConfig.Keys)
    requires UpdateMap(state, order) == project.config && |project.config| <= MAX_INT
    requires k in Leftover(Unnamed(project.config))
    ensures '/' !in k
  {
    ReadConfigsAreDotFree(project, sourceOrder, extraOrder, state);
    WrittenRestExactly(state, order, k);
    if k in SourcePart(state.sources) {
      var s := SourceKeyIsConsumed(state.sources, k);
    } else {
      var j := ExtraPartSource(state, order, k);
    }
  }

  lemma ReproducedConsumed(project: RemoteProject, sourceOrder: seq<string>, extraOrder: seq<string>,
                           state: ProjectState, order: seq<string>, k: string)
    requires ReadsAs(state.id, project, sourceOrder, extraOrder, state) && IsOrder(order, state.extraConfig.Keys)
    requires UpdateMap(state, order) == project.config && |project.config| <= MAX_INT
    requires SlashFreeLeftover(Unnamed(project.config))
    requires k in Unnamed(project.config) && SlotOf(k).Some?
    ensures k == SourceKey(SlotOf(k).value)
  {
    ReadConfigsAreDotFree(project, sourceOrder, extraOrder, state);
    WrittenRestExactly(state, order, k);
    SlashFreeExtraExactly(project, sourceOrder, extraOrder, state, order, k);
    var s := SourceKeyIsConsumed(state.sources, k);
  }

  lemma ReproducedNumbering(project: RemoteProject, sourceOrder: seq<string>, extraOrder: seq<string>,
                            state: ProjectState, order: seq<string>)
    requires ReadsAs(state.id, project, sourceOrder, extraOrder, state) && IsOrder(order, state.extraConfig.Keys)
    requires UpdateMap(state, order) == project.config && |project.config| <= MAX_INT
    ensures CompleteNumbering(Unnamed(project.config))
  {
    var rest := Unnamed(project.config);
    ReadConfigsAreDotFree(project, sourceOrder, extraOrder, state);
    forall a ensures a in state.attributes { ReadAttribute(project, a); }
    FewSources(project);
    OnlyTheWrittenIndices(state, order);
    forall i | i in Touched(rest) ensures SourceKey(TypeOf(i)) in rest {
      TypeKeyIsRead(state, order, i);
    }
  }

  lemma ReproducedNames(project: RemoteProject, sourceOrder: seq<string>, extraOrder: seq<string>,
                        state: ProjectState, order: seq<string>, a: Attribute)
    requires ReadsAs(state.id, project, sourceOrder, extraOrder, state) && IsOrder(order, state.extraConfig.Keys)
    requires UpdateMap(state, order) == project.config
    requires SlashFreeLeftover(Unnamed(project.config))
    ensures ConfigKey(a) in project.config ==> project.config[ConfigKey(a)] != ""
    ensures a == Name ==> AttributeValue(project.config, a) == project.name
  {
    var k := ConfigKey(a);
    AttributeKeys();
    ReadAttribute(project, a);
    WriterLayers(state, order, k);
    SlashFreeExtraExactly(project, sourceOrder, extraOrder, state, order, k);
    assert IsNamed(k);
  }

  /** Raw round trip: for every order of every loop, writing what was read reproduces the property
      map exactly when the project is reproducible. */
  lemma RawRoundTripExactly(project: RemoteProject, sourceOrder: seq<string>, extraOrder: seq<string>,
                            state: ProjectState, order: seq<string>)
    requires |project.config| <= MAX_INT
    requires ReadsAs(state.id, project, sourceOrder, extraOrder, state) && IsOrder(order, state.extraConfig.Keys)
    ensures UpdateMap(state, order) == project.config <==> Reproducible(project)
  {
    if Reproducible(project) {
      ReproducibleIsReproduced(project, sourceOrder, extraOrder, state, order);
    }
    if UpdateMap(state, order) == project.config {
      forall k | k in Leftover(Unnamed(project.config)) ensures '/' !in k {
        ReproducedLeftover(project, sourceOrder, extraOrder, state, order, k);
      }
      forall k | k in Unnamed(project.config) && SlotOf(k).Some? ensures k == SourceKey(SlotOf(k).value) {
        ReproducedConsumed(project, sourceOrder, extraOrder, state, order, k);
      }
      ReproducedNumbering(project, sourceOrder, extraOrder, state, order);
      ReproducedNames(project, sourceOrder, extraOrder, state, order, Name);
      forall a | ConfigKey(a) in project.config ensures project.config[ConfigKey(a)] != "" {
        ReproducedNames(project, sourceOrder, extraOrder, state, order, a);
      }
    }
  }

  ghost predicate SomeRewriteReproduces(project: RemoteProject) {
    exists sourceOrder, extraOrder, state: ProjectState, order ::
      ReadsAs(state.id, project, sourceOrder, extraOrder, state) && IsOrder(order, state.extraConfig.Keys) &&
      UpdateMap(state, order) == project.config
  }

  ghost predicate EveryRewriteReproduces(project: RemoteProject) {
    forall sourceOrder, extraOrder, state: ProjectState, order ::
      ReadsAs(state.id, project, sourceOrder, extraOrder, state) && IsOrder(order, state.extraConfig.Keys) ==>
        UpdateMap(state, order) == project.config
  }

  lemma ReproducibleExactly(project: RemoteProject)
    requires |project.config| <= MAX_INT
    ensures SomeRewriteReproduces(project) <==> Reproducible(project)
  {
    var sourceOrder, extraOrder, state := ReadExists("", project);
    var order := SomeOrder(state.extraConfig.Keys);
    RawRoundTripExactly(project, sourceOrder, extraOrder, state, order);
    if SomeRewriteReproduces(project) {
      var so, eo, st: ProjectState, o :|
        ReadsAs(st.id, project, so, eo, st) && IsOrder(o, st.extraConfig.Keys) && UpdateMap(st, o) == project.config;
      RawRoundTripExactly(project, so, eo, st, o);
    }
  }

  /** If the property map survives one rewrite, it survives every rewrite. */
  lemma RewritesAgree(project: RemoteProject)
    requires |project.config| <= MAX_INT
    ensures SomeRewriteReproduces(project) <==> EveryRewriteReproduces(project)
  {
    ReproducibleExactly(project);
    forall so, eo, st: ProjectState, o | ReadsAs(st.id, project, so, eo, st) && IsOrder(o, st.extraConfig.Keys)
      ensures UpdateMap(st, o) == project.config <==> Reproducible(project)
    {
      RawRoundTripExactly(project, so, eo, st, o);
    }
    var sourceOrder, extraOrder, state := ReadExists("", project);
    var order := SomeOrder(state.extraConfig.Keys);
  }
}
