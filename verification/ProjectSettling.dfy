/** Repeated refreshes and updates: renumbering of sources, and when the state stops changing. */
module ProjectSettling {
  import opened Wrappers
  import opened GoStrings
  import opened MapRange
  import opened ProjectKeys
  import opened ProjectCodec
  import opened ProjectReading
  import opened ProjectRoundTrip
  import opened ProjectRawTrip

  /** The leftover keys stay leftover when an update has turned their slashes into dots. */
  ghost predicate Settled(project: RemoteProject) {
    var rest := Unnamed(project.config);
    forall l :: l in Leftover(rest) ==> StaysExtra(Replace(l, '/', '.'), |Touched(rest)|)
  }

  lemma ReadExtraHasNoDots(project: RemoteProject, sourceOrder: seq<string>, extraOrder: seq<string>,
                           state: ProjectState, e: string)
    requires ReadsAs(state.id, project, sourceOrder, extraOrder, state) && e in state.extraConfig
    ensures Replace(e, '.', '/') == e
    ensures exists l :: l in Leftover(Unnamed(project.config)) && Replace(e, '/', '.') == Replace(l, '/', '.')
  {
    var l := ExtraSource(Unnamed(project.config), extraOrder, e);
    ReplaceRemoves(l, '.', '/');
    ReplaceNothing(e, '.', '/');
    ReplaceBack(l, '.', '/');
  }

  lemma LeftoverShowsAs(project: RemoteProject, sourceOrder: seq<string>, extraOrder: seq<string>,
                        state: ProjectState, l: string)
    requires ReadsAs(state.id, project, sourceOrder, extraOrder, state) && l in Leftover(Unnamed(project.config))
    ensures Replace(l, '.', '/') in state.extraConfig
    ensures Replace(Replace(l, '.', '/'), '/', '.') == Replace(l, '/', '.')
  {
    ExtraCovers(Unnamed(project.config), extraOrder, l);
    ReplaceBack(l, '.', '/');
  }

  lemma ReadExtraIsConsistent(project: RemoteProject, sourceOrder: seq<string>, extraOrder: seq<string>,
                              state: ProjectState)
    requires ReadsAs(state.id, project, sourceOrder, extraOrder, state)
    ensures Consistent(state.extraConfig.Keys, state.extraConfig, DotsToSlashes)
  {
    forall e | e in state.extraConfig ensures DotsToSlashes(e) == Some(e) {
      ReadExtraHasNoDots(project, sourceOrder, extraOrder, state, e);
    }
  }

  lemma StorableWhenSettled(project: RemoteProject, sourceOrder: seq<string>, extraOrder: seq<string>,
                            state: ProjectState)
    requires ReadsAs(state.id, project, sourceOrder, extraOrder, state) && |project.config| <= MAX_INT
    ensures Storable(state) <==> Settled(project)
  {
    var rest := Unnamed(project.config);
    ReadConfigsAreDotFree(project, sourceOrder, extraOrder, state);
    ReadExtraIsConsistent(project, sourceOrder, extraOrder, state);
    FewSources(project);
    assert |state.sources| == |Touched(rest)|;
    if Storable(state) {
      forall l | l in Leftover(rest) ensures StaysExtra(Replace(l, '/', '.'), |Touched(rest)|) {
        LeftoverShowsAs(project, sourceOrder, extraOrder, state, l);
      }
    }
    if Settled(project) {
      forall e | e in state.extraConfig ensures StaysExtra(Replace(e, '/', '.'), |state.sources|) {
        ReadExtraHasNoDots(project, sourceOrder, extraOrder, state, e);
      }
    }
  }

  lemma ExtraPreservedIsSame(before: map<string, string>, after: map<string, string>)
    requires forall k :: k in before ==> Replace(k, '.', '/') == k
    ensures ExtraPreserved(before, after) <==> before == after
  {
    if ExtraPreserved(before, after) {
      forall k | k in before ensures k in after && before[k] == after[k] {
        assert Replace(k, '.', '/') in after && after[Replace(k, '.', '/')] == before[k];
      }
      SameMap(before, after);
    }
    if before == after {
      forall e | e in after ensures exists k :: k in before && Replace(k, '.', '/') == e {
        assert Replace(e, '.', '/') == e;
      }
    }
  }

  lemma PreservedIsSame(project: RemoteProject, sourceOrder: seq<string>, extraOrder: seq<string>, state: ProjectState,
                        again: RemoteProject, sourceOrder2: seq<string>, extraOrder2: seq<string>, after: ProjectState)
    requires ReadsAs(state.id, project, sourceOrder, extraOrder, state)
    requires ReadsAs(state.id, again, sourceOrder2, extraOrder2, after)
    requires again.name == project.name && again.url == project.url
    ensures Preserved(state, after, project.name) <==> after == state
  {
    forall e | e in state.extraConfig ensures Replace(e, '.', '/') == e {
      ReadExtraHasNoDots(project, sourceOrder, extraOrder, state, e);
    }
    ExtraPreservedIsSame(state.extraConfig, after.extraConfig);
    ReadAttribute(project, Name);
    assert state.attributes[Name := project.name] == state.attributes;
  }

  /** Refresh, apply, refresh: whatever the property map and whatever the orders of the loops, the
      second refresh ends in the state of the first exactly when the project is settled. */
  lemma RefreshApplyRefreshExactly(
    project: RemoteProject, sourceOrder: seq<string>, extraOrder: seq<string>, state: ProjectState,
    order: seq<string>, again: RemoteProject, sourceOrder2: seq<string>, extraOrder2: seq<string>, after: ProjectState)
    requires |project.config| <= MAX_INT
    requires ReadsAs(state.id, project, sourceOrder, extraOrder, state) && IsOrder(order, state.extraConfig.Keys)
    requires again == project.(config := UpdateMap(state, order))
    requires ReadsAs(state.id, again, sourceOrder2, extraOrder2, after)
    ensures after == state <==> Settled(project)
  {
    ReadConfigsAreDotFree(project, sourceOrder, extraOrder, state);
    forall a ensures a in state.attributes { ReadAttribute(project, a); }
    StateRoundTripExactly(state, again, order, sourceOrder2, extraOrder2, after);
    StorableWhenSettled(project, sourceOrder, extraOrder, state);
    PreservedIsSame(project, sourceOrder, extraOrder, state, again, sourceOrder2, extraOrder2, after);
  }

  lemma HeldIsWritten(state: ProjectState, order: seq<string>, s: Slot)
    requires (forall a :: a in state.attributes) && IsOrder(order, state.extraConfig.Keys)
    requires Holds(state.sources, s)
    ensures SourceKey(s) in UpdateMap(state, order) &&
            UpdateMap(state, order)[SourceKey(s)] == ValueAt(state.sources, s)
  {
    SourcePartCovers(state.sources, s);
    WriterLayers(state, order, SourceKey(s));
  }

  /** What the p-th record read is written under. */
  lemma RecordIsWritten(state: ProjectState, order: seq<string>, indices: set<int>, slots: map<Slot, string>,
                        p: nat, name: string)
    requires (forall a :: a in state.attributes) && IsOrder(order, state.extraConfig.Keys)
    requires state.sources == SourcesOf(indices, slots) && p < |Ascend(indices)|
    ensures var u, index := UpdateMap(state, order), Ascend(indices)[p];
            && SourceKey(TypeOf(p + 1)) in u && u[SourceKey(TypeOf(p + 1))] == KindAt(index, slots)
            && (ConfigOf(index, name) in slots ==>
                  SourceKey(ConfigOf(p + 1, name)) in u &&
                  u[SourceKey(ConfigOf(p + 1, name))] == slots[ConfigOf(index, name)])
  {
    var t, c := TypeOf(p + 1), ConfigOf(p + 1, name);
    ReadHolds(indices, slots, t);
    HeldIsWritten(state, order, t);
    ReadHolds(indices, slots, c);
    if ConfigOf(Ascend(indices)[p], name) in slots {
      HeldIsWritten(state, order, c);
    }
  }

  /** An update renumbers: the source whose index was the p-th smallest, in numeric order, is written
      under p, with its type and all its config entries. */
  lemma Renumbered(project: RemoteProject, sourceOrder: seq<string>, extraOrder: seq<string>, state: ProjectState,
                   order: seq<string>, p: nat, name: string)
    requires ReadsAs(state.id, project, sourceOrder, extraOrder, state) && IsOrder(order, state.extraConfig.Keys)
    requires p < |Touched(Unnamed(project.config))|
    ensures var rest, u := Unnamed(project.config), UpdateMap(state, order);
            var slots, indices := SlotsRead(rest, sourceOrder), Ascend(Touched(rest));
            && |indices| == |Touched(rest)|
            && (forall q :: p < q < |indices| ==> indices[p] < indices[q])
            && SourceKey(TypeOf(p + 1)) in u && u[SourceKey(TypeOf(p + 1))] == KindAt(indices[p], slots)
            && (ConfigOf(indices[p], name) in slots ==>
                  SourceKey(ConfigOf(p + 1, name)) in u &&
                  u[SourceKey(ConfigOf(p + 1, name))] == slots[ConfigOf(indices[p], name)])
  {
    var indices := Touched(Unnamed(project.config));
    OrderLength(Ascend(indices), indices);
    forall q | p < q < |Ascend(indices)| ensures Ascend(indices)[p] < Ascend(indices)[q] {
      AscendIncreases(indices, p, q);
    }
    RecordIsWritten(state, order, indices, SlotsRead(Unnamed(project.config), sourceOrder), p, name);
  }

  // ---------------------------------------------------------------- Order of the writer's loop

  /** The extra keys that no named attribute and no source property overrides. */
  ghost function Visible(state: ProjectState): set<string> {
    set k | k in state.extraConfig && !Overridden(state, Replace(k, '/', '.'))
  }

  ghost predicate Overridden(state: ProjectState, raw: string) {
    raw in SourcePart(state.sources) ||
    exists a :: a in state.attributes && ConfigKey(a) == raw && state.attributes[a] != ""
  }

  lemma NotOverridden(state: ProjectState, order: seq<string>, raw: string)
    requires (forall a :: a in state.attributes) && IsOrder(order, state.extraConfig.Keys)
    requires !Overridden(state, raw)
    ensures raw in UpdateMap(state, order) <==> raw in ExtraPart(state, order)
    ensures raw in ExtraPart(state, order) ==> UpdateMap(state, order)[raw] == ExtraPart(state, order)[raw]
  {
    WriterLayers(state, order, raw);
  }

  lemma SameUpdate(state: ProjectState, o1: seq<string>, o2: seq<string>, raw: string)
    requires forall a :: a in state.attributes
    requires IsOrder(o1, state.extraConfig.Keys) && IsOrder(o2, state.extraConfig.Keys)
    requires Consistent(Visible(state), state.extraConfig, SlashesToDots)
    requires raw in UpdateMap(state, o1)
    ensures raw in UpdateMap(state, o2) && UpdateMap(state, o2)[raw] == UpdateMap(state, o1)[raw]
  {
    WriterLayers(state, o1, raw);
    WriterLayers(state, o2, raw);
    if !Overridden(state, raw) {
      NotOverridden(state, o1, raw);
      NotOverridden(state, o2, raw);
      var j := ExtraPartSource(state, o1, raw);
      ExtraPartCovers(state, o2, j);
      var k := ExtraPartSource(state, o2, raw);
      assert SlashesToDots(j) == SlashesToDots(k);
    }
  }

  ghost predicate SameUpdateMap(state: ProjectState, o1: seq<string>, o2: seq<string>)
    requires forall a :: a in state.attributes
  {
    IsOrder(o1, state.extraConfig.Keys) && IsOrder(o2, state.extraConfig.Keys)
    ==> UpdateMap(state, o1) == UpdateMap(state, o2)
  }

  lemma VisibleValue(state: ProjectState, k: string) returns (order: seq<string>)
    requires (forall a :: a in state.attributes) && k in Visible(state)
    ensures IsOrder(order, state.extraConfig.Keys)
    ensures Replace(k, '/', '.') in UpdateMap(state, order) &&
            UpdateMap(state, order)[Replace(k, '/', '.')] == state.extraConfig[k]
  {
    order := OrderEndingIn(state.extraConfig.Keys, k, state.extraConfig, SlashesToDots);
    NotOverridden(state, order, Replace(k, '/', '.'));
  }

  /** An update sends one and the same map for every order of its loop over `extra_config`, exactly
      when no two visible extra keys turn into one property with different values. */
  lemma WriteOrderFreeExactly(state: ProjectState)
    requires forall a :: a in state.attributes
    ensures (forall o1, o2 :: SameUpdateMap(state, o1, o2)) <==>
            Consistent(Visible(state), state.extraConfig, SlashesToDots)
  {
    if Consistent(Visible(state), state.extraConfig, SlashesToDots) {
      forall o1, o2 ensures SameUpdateMap(state, o1, o2) {
        if IsOrder(o1, state.extraConfig.Keys) && IsOrder(o2, state.extraConfig.Keys) {
          forall raw | raw in UpdateMap(state, o1)
            ensures raw in UpdateMap(state, o2) && UpdateMap(state, o1)[raw] == UpdateMap(state, o2)[raw]
          {
            SameUpdate(state, o1, o2, raw);
          }
          forall raw | raw in UpdateMap(state, o2) ensures raw in UpdateMap(state, o1) {
            SameUpdate(state, o2, o1, raw);
          }
          SameMap(UpdateMap(state, o1), UpdateMap(state, o2));
        }
      }
    }
    if forall o1, o2 :: SameUpdateMap(state, o1, o2) {
      forall j, k | j in Visible(state) && k in Visible(state) && SlashesToDots(j) == SlashesToDots(k)
        ensures state.extraConfig[j] == state.extraConfig[k]
      {
        var o1 := VisibleValue(state, j);
        var o2 := VisibleValue(state, k);
        assert SameUpdateMap(state, o1, o2);
      }
    }
  }
}
