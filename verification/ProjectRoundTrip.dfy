/** The writer and the reader against each other: exactly which states and which property maps
    survive a trip through the other side. */
module ProjectRoundTrip {
  import opened Wrappers
  import opened GoStrings
  import opened MapRange
  import opened Ordering
  import opened ProjectKeys
  import opened ProjectCodec
  import opened ProjectReading

  // ---------------------------------------------------------------- The layers of the written map

  ghost function ExtraPart(state: ProjectState, order: seq<string>): map<string, string>
    requires IsOrder(order, state.extraConfig.Keys)
  {
    OrderStaysInside(order, state.extraConfig.Keys, state.extraConfig);
    Assign(order, state.extraConfig, SlashesToDots)
  }

  lemma ExtraPartSource(state: ProjectState, order: seq<string>, e: string) returns (k: string)
    requires IsOrder(order, state.extraConfig.Keys) && e in ExtraPart(state, order)
    ensures k in state.extraConfig && Replace(k, '/', '.') == e && ExtraPart(state, order)[e] == state.extraConfig[k]
    ensures '/' !in e
  {
    OrderStaysInside(order, state.extraConfig.Keys, state.extraConfig);
    k := AssignSource(order, state.extraConfig, SlashesToDots, e);
    ReplaceRemoves(k, '/', '.');
  }

  lemma ExtraPartCovers(state: ProjectState, order: seq<string>, k: string)
    requires IsOrder(order, state.extraConfig.Keys) && k in state.extraConfig
    ensures Replace(k, '/', '.') in ExtraPart(state, order)
  {
    OrderStaysInside(order, state.extraConfig.Keys, state.extraConfig);
    assert k in Elements(order);
    AssignCovers(order, state.extraConfig, SlashesToDots, k);
  }

  /** A key of the source layer is the name of exactly one slot that the sources hold. */
  lemma SourcePartSlot(sources: seq<Source>, k: string) returns (s: Slot)
    requires k in SourcePart(sources)
    ensures Holds(sources, s) && SourceKey(s) == k && SourcePart(sources)[k] == ValueAt(sources, s)
    ensures SOURCE_PREFIX <= k
  {
    SourceKeysInjective();
    s :| s in SlotValues(sources) && SourceKey(s) == k;
    SourceKeyParts(s);
  }

  lemma SourcePartCovers(sources: seq<Source>, s: Slot)
    requires Holds(sources, s)
    ensures SourceKey(s) in SourcePart(sources) && SourcePart(sources)[SourceKey(s)] == ValueAt(sources, s)
  {
    SourceKeysInjective();
    assert s in SlotValues(sources);
  }

  /** The writer is a layered override: source properties win over named attributes, which win
      over `extra_config`; the first two layers never meet. */
  lemma WriterLayers(state: ProjectState, order: seq<string>, k: string)
    requires (forall a :: a in state.attributes) && IsOrder(order, state.extraConfig.Keys)
    ensures var u := UpdateMap(state, order);
            && (k in SourcePart(state.sources) ==> !IsNamed(k) && k in u && u[k] == SourcePart(state.sources)[k])
            && (forall a :: ConfigKey(a) == k && state.attributes[a] != "" ==> k in u && u[k] == state.attributes[a])
            && (k !in SourcePart(state.sources) && (forall a :: ConfigKey(a) == k ==> state.attributes[a] == "") ==>
                  (k in u <==> k in ExtraPart(state, order)) && (k in u ==> u[k] == ExtraPart(state, order)[k]))
  {
    AttributeKeys();
    if k in SourcePart(state.sources) {
      var s := SourcePartSlot(state.sources, k);
    }
    NamedPartExactly(state.attributes, k);
  }

  lemma NamedPartExactly(attributes: map<Attribute, string>, k: string)
    requires forall a :: a in attributes
    ensures k in NamedPart(attributes) <==> exists a :: ConfigKey(a) == k && attributes[a] != ""
    ensures forall a :: ConfigKey(a) == k && attributes[a] != "" ==>
            k in NamedPart(attributes) && NamedPart(attributes)[k] == attributes[a]
    ensures k in NamedPart(attributes) ==> IsNamed(k)
  {
    AttributeKeys();
  }

  /** What a reader that has taken out the named attributes finds of a written map. */
  ghost function WrittenRest(state: ProjectState, order: seq<string>): map<string, string>
    requires (forall a :: a in state.attributes) && IsOrder(order, state.extraConfig.Keys)
  {
    Unnamed(UpdateMap(state, order))
  }

  lemma WrittenRestExactly(state: ProjectState, order: seq<string>, k: string)
    requires (forall a :: a in state.attributes) && IsOrder(order, state.extraConfig.Keys)
    ensures k in WrittenRest(state, order) <==>
            !IsNamed(k) && (k in SourcePart(state.sources) || k in ExtraPart(state, order))
    ensures k in WrittenRest(state, order) ==>
              WrittenRest(state, order)[k] ==
              if k in SourcePart(state.sources) then SourcePart(state.sources)[k] else ExtraPart(state, order)[k]
  {
    WriterLayers(state, order, k);
    AttributeKeys();
    assert !IsNamed(k) ==> forall a :: ConfigKey(a) != k;
  }

  // ---------------------------------------------------------------- State, written and read back

  ghost predicate DotFreeConfigs(sources: seq<Source>) {
    forall p, n :: 0 <= p < |sources| && n in sources[p].config ==> '.' !in n
  }

  /** A key that the reader of a project with `count` sources will leave in `extra_config`. */
  ghost predicate StaysExtra(k: string, count: nat) {
    !IsNamed(k) && SlotOf(k).None? && (RecordIndex(k).Some? ==> 1 <= RecordIndex(k).value <= count)
  }

  /** The states that survive being written and read back. */
  ghost predicate Storable(state: ProjectState) {
    && DotFreeConfigs(state.sources)
    && (forall k :: k in state.extraConfig ==> StaysExtra(Replace(k, '/', '.'), |state.sources|))
    && Consistent(state.extraConfig.Keys, state.extraConfig, DotsToSlashes)
  }

  /** `after` shows the same project as `before`: same ordered sources and named attributes, the
      server's name, and `extra_config` with every dot in its keys turned into a slash. */
  ghost predicate Preserved(before: ProjectState, after: ProjectState, name: string) {
    && after.sources == before.sources
    && after.attributes == before.attributes[Name := name]
    && ExtraPreserved(before.extraConfig, after.extraConfig)
  }

  ghost predicate ExtraPreserved(before: map<string, string>, after: map<string, string>) {
    && (forall e :: e in after ==> exists k :: k in before && Replace(k, '.', '/') == e)
    && (forall k :: k in before ==> Replace(k, '.', '/') in after && after[Replace(k, '.', '/')] == before[k])
  }

  /** The one slash-free key that shows up in `extra_config` as `k` does. */
  lemma SlashFreeOrigin(k: string, l: string)
    requires '/' !in l && Replace(l, '.', '/') == Replace(k, '.', '/')
    ensures l == Replace(k, '/', '.')
  {
    ReplaceBack(l, '.', '/');
    ReplaceBack(k, '.', '/');
  }

  /** Replacing slashes first makes no difference to replacing dots. */
  lemma SlashesThenDots(k: string)
    ensures Replace(Replace(k, '/', '.'), '.', '/') == Replace(k, '.', '/')
  {
    ReplaceBack(k, '/', '.');
  }

  lemma SameValue(extra: map<string, string>, j: string, k: string)
    requires Consistent(extra.Keys, extra, DotsToSlashes)
    requires j in extra && k in extra && Replace(j, '.', '/') == Replace(k, '.', '/')
    ensures extra[j] == extra[k]
  {
    assert DotsToSlashes(j) == DotsToSlashes(k);
  }

  /** Every key of the source layer is taken for the slot it was written for. */
  lemma SourceKeyIsConsumed(sources: seq<Source>, k: string) returns (s: Slot)
    requires k in SourcePart(sources) && DotFreeConfigs(sources) && |sources| <= MAX_INT
    ensures Holds(sources, s) && SourceKey(s) == k && SlotOf(k) == Some(s) && RecordIndex(k) == Some(s.index)
    ensures SourcePart(sources)[k] == ValueAt(sources, s)
  {
    s := SourcePartSlot(sources, k);
    SourceKeyReadBack(s);
  }

  lemma TypeKeyIsRead(state: ProjectState, order: seq<string>, i: int)
    requires state.Complete() && IsOrder(order, state.extraConfig.Keys) && 1 <= i <= |state.sources|
    ensures SourceKey(TypeOf(i)) in WrittenRest(state, order) && i in Touched(WrittenRest(state, order))
  {
    var k := SourceKey(TypeOf(i));
    SourcePartCovers(state.sources, TypeOf(i));
    WriterLayers(state, order, k);
    WrittenRestExactly(state, order, k);
    SourceKeyReadBack(TypeOf(i));
  }

  ghost function UpTo(n: nat): (indices: set<int>)
    ensures forall i :: i in indices <==> 1 <= i <= n
  {
    set i: int {:trigger} | 1 <= i <= n
  }

  lemma {:induction false} AscendUpTo(n: nat)
    ensures |UpTo(n)| == n
    ensures |Ascend(UpTo(n))| == n && forall p :: 0 <= p < n ==> Ascend(UpTo(n))[p] == p + 1
  {
    var order := seq(n, p => p + 1);
    forall i ensures i in Elements(order) <==> i in UpTo(n) {
      if i in UpTo(n) {
        assert order[i - 1] == i;
      }
    }
    IntLeTotal();
    OrderLength(order, UpTo(n));
    ListingIsUnique(Ascend(UpTo(n)), order, UpTo(n), IntLe);
  }

  lemma TouchedWhenWritten(state: ProjectState, order: seq<string>, i: int)
    requires state.Complete() && IsOrder(order, state.extraConfig.Keys) && Storable(state)
    requires i in Touched(WrittenRest(state, order))
    ensures 1 <= i <= |state.sources|
  {
    var k :| k in WrittenRest(state, order) && RecordIndex(k) == Some(i);
    WrittenRestExactly(state, order, k);
    if k in SourcePart(state.sources) {
      var s := SourceKeyIsConsumed(state.sources, k);
    } else {
      var j := ExtraPartSource(state, order, k);
    }
  }

  /** The reader makes records for exactly the written sources. */
  lemma TouchedWritten(state: ProjectState, order: seq<string>)
    requires state.Complete() && IsOrder(order, state.extraConfig.Keys) && Storable(state)
    ensures Touched(WrittenRest(state, order)) == UpTo(|state.sources|)
  {
    forall i ensures i in Touched(WrittenRest(state, order)) <==> 1 <= i <= |state.sources| {
      if i in Touched(WrittenRest(state, order)) {
        TouchedWhenWritten(state, order, i);
      }
      if 1 <= i <= |state.sources| {
        TypeKeyIsRead(state, order, i);
      }
    }
  }

  lemma SlotReadWasWritten(state: ProjectState, order: seq<string>, sourceOrder: seq<string>, s: Slot)
    requires state.Complete() && IsOrder(order, state.extraConfig.Keys) && Storable(state)
    requires IsOrder(sourceOrder, WrittenRest(state, order).Keys)
    requires s in SlotsRead(WrittenRest(state, order), sourceOrder)
    ensures Holds(state.sources, s)
    ensures SlotsRead(WrittenRest(state, order), sourceOrder)[s] == ValueAt(state.sources, s)
  {
    var k := SlotSource(WrittenRest(state, order), sourceOrder, s);
    WrittenRestExactly(state, order, k);
    if k in SourcePart(state.sources) {
      var t := SourceKeyIsConsumed(state.sources, k);
    } else {
      var j := ExtraPartSource(state, order, k);
    }
  }

  lemma SlotWrittenIsRead(state: ProjectState, order: seq<string>, sourceOrder: seq<string>, s: Slot)
    requires state.Complete() && IsOrder(order, state.extraConfig.Keys) && Storable(state)
    requires IsOrder(sourceOrder, WrittenRest(state, order).Keys)
    requires Holds(state.sources, s)
    ensures s in SlotsRead(WrittenRest(state, order), sourceOrder)
  {
    var k := SourceKey(s);
    SourcePartCovers(state.sources, s);
    SourceKeyReadBack(s);
    WriterLayers(state, order, k);
    WrittenRestExactly(state, order, k);
    SlotCovers(WrittenRest(state, order), sourceOrder, k);
  }

  lemma SlotsWritten(state: ProjectState, order: seq<string>, sourceOrder: seq<string>)
    requires state.Complete() && IsOrder(order, state.extraConfig.Keys) && Storable(state)
    requires IsOrder(sourceOrder, WrittenRest(state, order).Keys)
    ensures SlotsRead(WrittenRest(state, order), sourceOrder) == SlotValues(state.sources)
  {
    var slots, values := SlotsRead(WrittenRest(state, order), sourceOrder), SlotValues(state.sources);
    forall s | s in slots ensures s in values && slots[s] == values[s] {
      SlotReadWasWritten(state, order, sourceOrder, s);
    }
    forall s | s in values ensures s in slots {
      SlotWrittenIsRead(state, order, sourceOrder, s);
    }
    SameMap(slots, values);
  }

  lemma SourceRebuilt(sources: seq<Source>, p: nat)
    requires p < |sources|
    ensures Source(KindAt(p + 1, SlotValues(sources)), ConfigAt(p + 1, SlotValues(sources))) == sources[p]
  {
    assert Holds(sources, TypeOf(p + 1));
    var config := ConfigAt(p + 1, SlotValues(sources));
    forall n ensures n in config <==> n in sources[p].config
             ensures n in config ==> config[n] == sources[p].config[n]
    {
      assert ConfigOf(p + 1, n) in SlotValues(sources) <==> Holds(sources, ConfigOf(p + 1, n));
    }
  }

  lemma SourcesRebuilt(sources: seq<Source>)
    ensures SourcesOf(UpTo(|sources|), SlotValues(sources)) == sources
  {
    AscendUpTo(|sources|);
    var rebuilt := SourcesOf(UpTo(|sources|), SlotValues(sources));
    forall p | 0 <= p < |sources| ensures rebuilt[p] == sources[p] {
      SourceRebuilt(sources, p);
      assert Ascend(UpTo(|sources|))[p] == p + 1;
    }
  }

  /** The keys left over are exactly those that `extra_config` wrote. */
  lemma LeftoverWritten(state: ProjectState, order: seq<string>)
    requires state.Complete() && IsOrder(order, state.extraConfig.Keys) && Storable(state)
    ensures Leftover(WrittenRest(state, order)) == ExtraPart(state, order).Keys
    ensures forall e :: e in ExtraPart(state, order) ==>
                          e in WrittenRest(state, order) && WrittenRest(state, order)[e] == ExtraPart(state, order)[e]
  {
    var rest, extra := WrittenRest(state, order), ExtraPart(state, order);
    forall k ensures k in Leftover(rest) <==> k in extra
             ensures k in extra ==> k in rest && rest[k] == extra[k]
    {
      WrittenRestExactly(state, order, k);
      if k in extra {
        var j := ExtraPartSource(state, order, k);
      }
      if k in SourcePart(state.sources) {
        var s := SourceKeyIsConsumed(state.sources, k);
      }
    }
  }

  lemma ExtraReadWasWritten(state: ProjectState, order: seq<string>, extraOrder: seq<string>, e: string)
      returns (k: string)
    requires state.Complete() && IsOrder(order, state.extraConfig.Keys) && Storable(state)
    requires IsOrder(extraOrder, Leftover(WrittenRest(state, order)))
    requires e in ExtraRead(WrittenRest(state, order), extraOrder)
    ensures k in state.extraConfig && Replace(k, '.', '/') == e
    ensures ExtraRead(WrittenRest(state, order), extraOrder)[e] == state.extraConfig[k]
  {
    LeftoverWritten(state, order);
    var d := ExtraSource(WrittenRest(state, order), extraOrder, e);
    k := ExtraPartSource(state, order, d);
    SlashesThenDots(k);
  }

  lemma ExtraWrittenIsRead(state: ProjectState, order: seq<string>, extraOrder: seq<string>, k: string)
    requires state.Complete() && IsOrder(order, state.extraConfig.Keys) && Storable(state)
    requires IsOrder(extraOrder, Leftover(WrittenRest(state, order)))
    requires k in state.extraConfig
    ensures Replace(k, '.', '/') in ExtraRead(WrittenRest(state, order), extraOrder)
    ensures ExtraRead(WrittenRest(state, order), extraOrder)[Replace(k, '.', '/')] == state.extraConfig[k]
  {
    LeftoverWritten(state, order);
    ExtraPartCovers(state, order, k);
    ExtraCovers(WrittenRest(state, order), extraOrder, Replace(k, '/', '.'));
    SlashesThenDots(k);
    var j := ExtraReadWasWritten(state, order, extraOrder, Replace(k, '.', '/'));
    SameValue(state.extraConfig, j, k);
  }

  lemma ExtraRestored(state: ProjectState, order: seq<string>, extraOrder: seq<string>)
    requires state.Complete() && IsOrder(order, state.extraConfig.Keys) && Storable(state)
    requires IsOrder(extraOrder, Leftover(WrittenRest(state, order)))
    ensures ExtraPreserved(state.extraConfig, ExtraRead(WrittenRest(state, order), extraOrder))
  {
    var extra := ExtraRead(WrittenRest(state, order), extraOrder);
    forall e | e in extra ensures exists k :: k in state.extraConfig && Replace(k, '.', '/') == e {
      var k := ExtraReadWasWritten(state, order, extraOrder, e);
    }
    forall k | k in state.extraConfig
      ensures Replace(k, '.', '/') in extra && extra[Replace(k, '.', '/')] == state.extraConfig[k]
    {
      ExtraWrittenIsRead(state, order, extraOrder, k);
    }
  }

  lemma AttributeRestored(state: ProjectState, order: seq<string>, a: Attribute)
    requires state.Complete() && IsOrder(order, state.extraConfig.Keys) && Storable(state)
    ensures AttributeValue(UpdateMap(state, order), a) == state.attributes[a]
  {
    AttributeKeys();
    var k := ConfigKey(a);
    WriterLayers(state, order, k);
    if k in SourcePart(state.sources) {
      var s := SourcePartSlot(state.sources, k);
    }
    if k in ExtraPart(state, order) {
      var j := ExtraPartSource(state, order, k);
    }
  }

  lemma AttributesRestored(state: ProjectState, order: seq<string>, project: RemoteProject)
    requires state.Complete() && IsOrder(order, state.extraConfig.Keys) && Storable(state)
    requires project.config == UpdateMap(state, order)
    ensures NamedAttributes(project) == state.attributes[Name := project.name]
  {
    forall a ensures AttributeValue(project.config, a) == state.attributes[a] {
      AttributeRestored(state, order, a);
    }
    SameAttributes(state.attributes, project);
  }

  lemma StorablePreserved(state: ProjectState, project: RemoteProject, order: seq<string>,
                          sourceOrder: seq<string>, extraOrder: seq<string>, after: ProjectState)
    requires state.Complete() && IsOrder(order, state.extraConfig.Keys)
    requires project.config == UpdateMap(state, order)
    requires ReadsAs(state.id, project, sourceOrder, extraOrder, after)
    requires Storable(state)
    ensures Preserved(state, after, project.name)
  {
    TouchedWritten(state, order);
    SlotsWritten(state, order, sourceOrder);
    SourcesRebuilt(state.sources);
    ExtraRestored(state, order, extraOrder);
    AttributesRestored(state, order, project);
  }

  lemma OnlyTheWrittenIndices(state: ProjectState, order: seq<string>)
    requires state.Complete() && IsOrder(order, state.extraConfig.Keys)
    requires |Ascend(Touched(WrittenRest(state, order)))| == |state.sources|
    ensures Touched(WrittenRest(state, order)) == UpTo(|state.sources|)
  {
    var touched, n := Touched(WrittenRest(state, order)), |state.sources|;
    forall i | i in UpTo(n) ensures i in touched { TypeKeyIsRead(state, order, i); }
    AscendUpTo(n);
    OrderLength(Ascend(touched), touched);
    SubsetOfSameSize(UpTo(n), touched);
  }

  lemma SubsetOfSameSize<T>(a: set<T>, b: set<T>)
    requires a <= b && |a| == |b|
    ensures a == b
  {
    assert |b - a| == |b| - |a|;
  }

  lemma PreservedConfigs(state: ProjectState, project: RemoteProject,
                         sourceOrder: seq<string>, extraOrder: seq<string>, after: ProjectState)
    requires ReadsAs(state.id, project, sourceOrder, extraOrder, after)
    ensures DotFreeConfigs(after.sources)
  {
    var rest := Unnamed(project.config);
    forall p, n | 0 <= p < |after.sources| && n in after.sources[p].config ensures '.' !in n {
      var s := ConfigOf(Ascend(Touched(rest))[p], n);
      var k := SlotSource(rest, sourceOrder, s);
    }
  }

  lemma PreservedExtraStays(state: ProjectState, order: seq<string>, extraOrder: seq<string>, k: string)
    requires state.Complete() && IsOrder(order, state.extraConfig.Keys) && DotFreeConfigs(state.sources)
    requires IsOrder(extraOrder, Leftover(WrittenRest(state, order)))
    requires Touched(WrittenRest(state, order)) == UpTo(|state.sources|)
    requires k in state.extraConfig && Replace(k, '.', '/') in ExtraRead(WrittenRest(state, order), extraOrder)
    ensures StaysExtra(Replace(k, '/', '.'), |state.sources|)
  {
    var e := Replace(k, '/', '.');
    var l := ExtraSource(WrittenRest(state, order), extraOrder, Replace(k, '.', '/'));
    WrittenRestExactly(state, order, l);
    if l in SourcePart(state.sources) {
      var s := SourceKeyIsConsumed(state.sources, l);
    } else {
      var j := ExtraPartSource(state, order, l);
      SlashFreeOrigin(k, l);
      assert l in WrittenRest(state, order);
      assert RecordIndex(l).Some? ==> RecordIndex(l).value in Touched(WrittenRest(state, order));
    }
  }

  lemma PreservedStorable(state: ProjectState, project: RemoteProject, order: seq<string>,
                          sourceOrder: seq<string>, extraOrder: seq<string>, after: ProjectState)
    requires state.Complete() && IsOrder(order, state.extraConfig.Keys)
    requires project.config == UpdateMap(state, order)
    requires ReadsAs(state.id, project, sourceOrder, extraOrder, after)
    requires Preserved(state, after, project.name)
    ensures Storable(state)
  {
    PreservedConfigs(state, project, sourceOrder, extraOrder, after);
    OnlyTheWrittenIndices(state, order);
    forall k | k in state.extraConfig ensures StaysExtra(Replace(k, '/', '.'), |state.sources|) {
      PreservedExtraStays(state, order, extraOrder, k);
    }
  }

  /** One way of writing a state and reading it back: `order` is that of the writer's loop over
      `extra_config`, and `project` is what the server then holds. */
  ghost predicate Trip(state: ProjectState, project: RemoteProject, order: seq<string>,
                       sourceOrder: seq<string>, extraOrder: seq<string>, after: ProjectState)
    requires state.Complete()
  {
    && IsOrder(order, state.extraConfig.Keys)
    && project.config == UpdateMap(state, order)
    && ReadsAs(state.id, project, sourceOrder, extraOrder, after)
  }

  lemma TripExists(state: ProjectState, name: string)
      returns (project: RemoteProject, order: seq<string>, sourceOrder: seq<string>,
               extraOrder: seq<string>, after: ProjectState)
    requires state.Complete()
    ensures Trip(state, project, order, sourceOrder, extraOrder, after) && project.name == name
  {
    order := SomeOrder(state.extraConfig.Keys);
    project := RemoteProject(name, "", UpdateMap(state, order));
    sourceOrder, extraOrder, after := ReadExists(state.id, project);
  }

  /** State round trip: for every order of every loop, writing a state and reading it back shows
      the same project exactly when the state is storable. */
  lemma StateRoundTripExactly(state: ProjectState, project: RemoteProject, order: seq<string>,
                              sourceOrder: seq<string>, extraOrder: seq<string>, after: ProjectState)
    requires state.Complete() && Trip(state, project, order, sourceOrder, extraOrder, after)
    ensures Preserved(state, after, project.name) <==> Storable(state)
  {
    if Storable(state) {
      StorablePreserved(state, project, order, sourceOrder, extraOrder, after);
    }
    if Preserved(state, after, project.name) {
      PreservedStorable(state, project, order, sourceOrder, extraOrder, after);
    }
  }

  ghost predicate SomeTripPreserves(state: ProjectState)
    requires state.Complete()
  {
    exists project, order, sourceOrder, extraOrder, after ::
      Trip(state, project, order, sourceOrder, extraOrder, after) && Preserved(state, after, project.name)
  }

  ghost predicate EveryTripPreserves(state: ProjectState)
    requires state.Complete()
  {
    forall project, order, sourceOrder, extraOrder, after ::
      Trip(state, project, order, sourceOrder, extraOrder, after) ==> Preserved(state, after, project.name)
  }

  lemma StorableExactly(state: ProjectState)
    requires state.Complete()
    ensures SomeTripPreserves(state) <==> Storable(state)
  {
    var project, order, sourceOrder, extraOrder, after := TripExists(state, "");
    StateRoundTripExactly(state, project, order, sourceOrder, extraOrder, after);
    if SomeTripPreserves(state) {
      var p, o, so, eo, a :| Trip(state, p, o, so, eo, a) && Preserved(state, a, p.name);
      StateRoundTripExactly(state, p, o, so, eo, a);
    }
  }

  /** Luck plays no part: if a state survives one trip, it survives every trip. */
  lemma TripsAgree(state: ProjectState)
    requires state.Complete()
    ensures SomeTripPreserves(state) <==> EveryTripPreserves(state)
  {
    StorableExactly(state);
    forall p, o, so, eo, a | Trip(state, p, o, so, eo, a) ensures Preserved(state, a, p.name) <==> Storable(state) {
      StateRoundTripExactly(state, p, o, so, eo, a);
    }
    var project, order, sourceOrder, extraOrder, after := TripExists(state, "");
  }
}
