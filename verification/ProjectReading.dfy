/** What a read keeps of the server's properties, and when its result depends on the order in
    which Go happens to range over them. */
module ProjectReading {
  import opened Wrappers
  import opened GoStrings
  import opened MapRange
  import opened ProjectKeys
  import opened ProjectCodec

  /** The slots that a read fills. */
  ghost function SlotsRead(rest: map<string, string>, order: seq<string>): map<Slot, string>
    requires IsOrder(order, rest.Keys)
  {
    OrderStaysInside(order, rest.Keys, rest);
    Assign(order, rest, SlotOf)
  }

  ghost function ExtraRead(rest: map<string, string>, order: seq<string>): map<string, string>
    requires IsOrder(order, Leftover(rest))
  {
    OrderStaysInside(order, Leftover(rest), rest);
    Assign(order, rest, DotsToSlashes)
  }

  lemma SlotSource(rest: map<string, string>, order: seq<string>, s: Slot) returns (k: string)
    requires IsOrder(order, rest.Keys) && s in SlotsRead(rest, order)
    ensures k in rest && SlotOf(k) == Some(s) && SlotsRead(rest, order)[s] == rest[k]
    ensures s.index in Touched(rest) && DotFree(s) && InRange(s.index)
  {
    OrderStaysInside(order, rest.Keys, rest);
    k := AssignSource(order, rest, SlotOf, s);
    SlotShape(k);
  }

  lemma SlotCovers(rest: map<string, string>, order: seq<string>, k: string)
    requires IsOrder(order, rest.Keys) && k in rest && SlotOf(k).Some?
    ensures SlotOf(k).value in SlotsRead(rest, order)
  {
    OrderStaysInside(order, rest.Keys, rest);
    assert k in Elements(order);
    AssignCovers(order, rest, SlotOf, k);
  }

  lemma ExtraSource(rest: map<string, string>, order: seq<string>, e: string) returns (k: string)
    requires IsOrder(order, Leftover(rest)) && e in ExtraRead(rest, order)
    ensures k in Leftover(rest) && Replace(k, '.', '/') == e && ExtraRead(rest, order)[e] == rest[k]
  {
    OrderStaysInside(order, Leftover(rest), rest);
    k := AssignSource(order, rest, DotsToSlashes, e);
    assert k in Elements(order);
  }

  lemma ExtraCovers(rest: map<string, string>, order: seq<string>, k: string)
    requires IsOrder(order, Leftover(rest)) && k in Leftover(rest)
    ensures Replace(k, '.', '/') in ExtraRead(rest, order)
  {
    OrderStaysInside(order, Leftover(rest), rest);
    assert k in Elements(order);
    AssignCovers(order, rest, DotsToSlashes, k);
  }

  // ---------------------------------------------------------------- Independence of the visiting order

  /** Every project can be read, in some order. */
  lemma ReadExists(id: string, project: RemoteProject)
      returns (sourceOrder: seq<string>, extraOrder: seq<string>, state: ProjectState)
    ensures state.id == id && ReadsAs(id, project, sourceOrder, extraOrder, state)
  {
    sourceOrder := SomeOrder(Unnamed(project.config).Keys);
    extraOrder := SomeOrder(Leftover(Unnamed(project.config)));
    state := ReadState(id, project, sourceOrder, extraOrder);
  }

  /** No two properties that end up in the same place have different values. */
  ghost predicate NoConflicts(rest: map<string, string>) {
    Consistent(rest.Keys, rest, SlotOf) && Consistent(Leftover(rest), rest, DotsToSlashes)
  }

  /** Records determine the slots they were assembled from. */
  lemma SourcesDetermineSlots(indices: set<int>, s1: map<Slot, string>, s2: map<Slot, string>)
    requires s1.Keys == s2.Keys && forall s :: s in s1 ==> s.index in indices
    requires SourcesOf(indices, s1) == SourcesOf(indices, s2)
    ensures s1 == s2
  {
    forall s | s in s1 ensures s1[s] == s2[s] {
      var order := Ascend(indices);
      assert s.index in Elements(order);
      var p :| 0 <= p < |order| && order[p] == s.index;
      var a, b := SourcesOf(indices, s1)[p], SourcesOf(indices, s2)[p];
      assert a == b;
      match s
      case TypeOf(i) => assert a.kind == s1[s] && b.kind == s2[s];
      case ConfigOf(i, n) => assert a.config[n] == s1[s] && b.config[n] == s2[s];
    }
  }

  ghost predicate SameRead(id: string, project: RemoteProject, o1: seq<string>, e1: seq<string>,
                           o2: seq<string>, e2: seq<string>)
  {
    var rest := Unnamed(project.config);
    IsOrder(o1, rest.Keys) && IsOrder(e1, Leftover(rest)) && IsOrder(o2, rest.Keys) && IsOrder(e2, Leftover(rest))
    ==> ReadState(id, project, o1, e1) == ReadState(id, project, o2, e2)
  }

  lemma SlotsReadKeys(rest: map<string, string>, o1: seq<string>, o2: seq<string>)
    requires IsOrder(o1, rest.Keys) && IsOrder(o2, rest.Keys)
    ensures SlotsRead(rest, o1).Keys == SlotsRead(rest, o2).Keys
    ensures forall s :: s in SlotsRead(rest, o1) ==> s.index in Touched(rest)
  {
    forall s | s in SlotsRead(rest, o1) ensures s in SlotsRead(rest, o2) && s.index in Touched(rest) {
      var k := SlotSource(rest, o1, s);
      SlotCovers(rest, o2, k);
    }
    forall s | s in SlotsRead(rest, o2) ensures s in SlotsRead(rest, o1) {
      var k := SlotSource(rest, o2, s);
      SlotCovers(rest, o1, k);
    }
  }

  /** A read ends in one and the same state for every order of both loops, exactly when no two
      properties compete for one place with different values. */
  lemma ReadOrderFreeExactly(id: string, project: RemoteProject)
    ensures (forall o1, e1, o2, e2 :: SameRead(id, project, o1, e1, o2, e2)) <==> NoConflicts(Unnamed(project.config))
  {
    var rest := Unnamed(project.config);
    if NoConflicts(rest) {
      forall o1, e1, o2, e2 ensures SameRead(id, project, o1, e1, o2, e2) {
        if IsOrder(o1, rest.Keys) && IsOrder(e1, Leftover(rest)) &&
           IsOrder(o2, rest.Keys) && IsOrder(e2, Leftover(rest)) {
          OrderStaysInside(o1, rest.Keys, rest);
          OrderStaysInside(e1, Leftover(rest), rest);
          SameResult(o1, o2, rest, SlotOf);
          SameResult(e1, e2, rest, DotsToSlashes);
        }
      }
    }
    if forall o1, e1, o2, e2 :: SameRead(id, project, o1, e1, o2, e2) {
      var o := SomeOrder(rest.Keys);
      var e := SomeOrder(Leftover(rest));
      forall o1, o2 | IsOrder(o1, rest.Keys) && IsOrder(o2, rest.Keys)
        ensures SameFor(o1, o2, rest.Keys, rest, SlotOf)
      {
        assert SameRead(id, project, o1, e, o2, e);
        SlotsReadKeys(rest, o1, o2);
        SourcesDetermineSlots(Touched(rest), SlotsRead(rest, o1), SlotsRead(rest, o2));
      }
      forall e1, e2 | IsOrder(e1, Leftover(rest)) && IsOrder(e2, Leftover(rest))
        ensures SameFor(e1, e2, Leftover(rest), rest, DotsToSlashes)
      {
        assert SameRead(id, project, o, e1, o, e2);
      }
      OrderFreeExactly(rest.Keys, rest, SlotOf);
      OrderFreeExactly(Leftover(rest), rest, DotsToSlashes);
    }
  }

  lemma SourcePropertyIsUnnamed(config: map<string, string>, k: string)
    requires k in config && SOURCE_PREFIX <= k
    ensures k in Unnamed(config)
  {
    AttributeKeys();
    IsNamedByTable(k);
  }

  /** Two spellings of one index, as `AtoiMergesSpellings` shows that "1" and "01" are, with different
      types: what is read depends on the order. */
  lemma SpellingsConflict(id: string, project: RemoteProject, a: string, b: string)
    requires '.' !in a && '.' !in b && Atoi(a).Some? && Atoi(a) == Atoi(b)
    requires SOURCE_PREFIX + a + ".type" in project.config && SOURCE_PREFIX + b + ".type" in project.config
    requires project.config[SOURCE_PREFIX + a + ".type"] != project.config[SOURCE_PREFIX + b + ".type"]
    ensures exists o1, e1, o2, e2 :: !SameRead(id, project, o1, e1, o2, e2)
  {
    var j, k := SOURCE_PREFIX + a + ".type", SOURCE_PREFIX + b + ".type";
    SourcePropertyIsUnnamed(project.config, j);
    SourcePropertyIsUnnamed(project.config, k);
    SpelledTypeKey(a);
    SpelledTypeKey(b);
    assert !Consistent(Unnamed(project.config).Keys, Unnamed(project.config), SlotOf);
    ReadOrderFreeExactly(id, project);
  }

  // ---------------------------------------------------------------- Conservation

  /** Where in the list of sources the record with a given index ends up. */
  ghost function Position(indices: set<int>, index: int): (p: nat)
    requires index in indices
    ensures p < |Ascend(indices)| && Ascend(indices)[p] == index
  {
    assert index in Elements(Ascend(indices));
    var p :| 0 <= p < |Ascend(indices)| && Ascend(indices)[p] == index;
    p
  }

  ghost predicate SourceShows(source: Source, slot: Slot, v: string) {
    match slot
    case TypeOf(_) => source.kind == v
    case ConfigOf(_, n) => n in source.config && source.config[n] == v
  }

  /** The property `k`, which is not a named attribute, is found in its one place with its value. */
  ghost predicate Kept(k: string, rest: map<string, string>, state: ProjectState)
    requires k in rest && |state.sources| == |Ascend(Touched(rest))|
  {
    match SlotOf(k)
    case Some(slot) =>
      SlotShape(k);
      SourceShows(state.sources[Position(Touched(rest), slot.index)], slot, rest[k])
    case None =>
      Replace(k, '.', '/') in state.extraConfig && state.extraConfig[Replace(k, '.', '/')] == rest[k]
  }

  lemma KeptExactly(id: string, project: RemoteProject, sourceOrder: seq<string>, extraOrder: seq<string>, k: string)
    requires IsOrder(sourceOrder, Unnamed(project.config).Keys)
    requires IsOrder(extraOrder, Leftover(Unnamed(project.config)))
    requires k in Unnamed(project.config)
    ensures var rest := Unnamed(project.config);
            Kept(k, rest, ReadState(id, project, sourceOrder, extraOrder)) <==>
            if SlotOf(k).Some? then SlotOf(k).value in SlotsRead(rest, sourceOrder) &&
                                    SlotsRead(rest, sourceOrder)[SlotOf(k).value] == rest[k]
            else Replace(k, '.', '/') in ExtraRead(rest, extraOrder) &&
                 ExtraRead(rest, extraOrder)[Replace(k, '.', '/')] == rest[k]
  {
    if SlotOf(k).Some? {
      SlotShape(k);
      SlotCovers(Unnamed(project.config), sourceOrder, k);
    }
  }

  ghost predicate LandsInRead(k: string, rest: map<string, string>, sourceOrder: seq<string>, extraOrder: seq<string>)
    requires k in rest && IsOrder(sourceOrder, rest.Keys) && IsOrder(extraOrder, Leftover(rest))
  {
    if SlotOf(k).Some? then Lands(k, rest, SlotOf, SlotsRead(rest, sourceOrder))
    else Lands(k, rest, DotsToSlashes, ExtraRead(rest, extraOrder))
  }

  lemma LandsInReadExactly(rest: map<string, string>, sourceOrder: seq<string>, extraOrder: seq<string>)
    requires IsOrder(sourceOrder, rest.Keys) && IsOrder(extraOrder, Leftover(rest))
    ensures (forall k :: k in rest ==> LandsInRead(k, rest, sourceOrder, extraOrder)) <==> NoConflicts(rest)
  {
    OrderStaysInside(sourceOrder, rest.Keys, rest);
    OrderStaysInside(extraOrder, Leftover(rest), rest);
    LandsExactly(sourceOrder, rest, SlotOf);
    LandsExactly(extraOrder, rest, DotsToSlashes);
    forall k ensures k in rest <==> k in sourceOrder { assert k in rest.Keys <==> k in Elements(sourceOrder); }
    forall k ensures k in rest && SlotOf(k).None? <==> k in extraOrder {
      assert k in Leftover(rest) <==> k in Elements(extraOrder);
    }
  }

  /** Every property lands with its value in its one place, exactly when there are no conflicts; the
      named ones always do, save that the project's own name stands in for its property. */
  lemma ConservationExactly(id: string, project: RemoteProject, sourceOrder: seq<string>, extraOrder: seq<string>)
    requires IsOrder(sourceOrder, Unnamed(project.config).Keys)
    requires IsOrder(extraOrder, Leftover(Unnamed(project.config)))
    ensures var rest := Unnamed(project.config);
            (forall k :: k in rest ==> Kept(k, rest, ReadState(id, project, sourceOrder, extraOrder)))
            <==> NoConflicts(rest)
    ensures forall a: Attribute :: a != Name && ConfigKey(a) in project.config ==>
              a in ReadState(id, project, sourceOrder, extraOrder).attributes &&
              ReadState(id, project, sourceOrder, extraOrder).attributes[a] == project.config[ConfigKey(a)]
    ensures forall k :: k in Unnamed(project.config) <==>
            k in project.config && forall a: Attribute :: ConfigKey(a) != k
  {
    var rest := Unnamed(project.config);
    AttributeKeys();
    forall k | k in rest
      ensures Kept(k, rest, ReadState(id, project, sourceOrder, extraOrder)) <==>
              LandsInRead(k, rest, sourceOrder, extraOrder)
    {
      KeptExactly(id, project, sourceOrder, extraOrder, k);
    }
    LandsInReadExactly(rest, sourceOrder, extraOrder);
  }

  /** Every source property has the spelling that the writer would give it. */
  ghost predicate CanonicalKeys(rest: map<string, string>) {
    forall k :: k in rest && SlotOf(k).Some? ==> k == SourceKey(SlotOf(k).value)
  }

  lemma SlashFreeApart(j: string, k: string)
    requires '/' !in j && '/' !in k && Replace(j, '.', '/') == Replace(k, '.', '/')
    ensures j == k
  {
    ReplaceBack(j, '.', '/');
    ReplaceBack(k, '.', '/');
    ReplaceNothing(j, '/', '.');
    ReplaceNothing(k, '/', '.');
  }

  /** No place is shared when keys are slash-free and indices canonically spelled: a named or consumed
      property does not show up in `extra_config` as well, and no two properties have one place. Then
      there are no conflicts, so that each property is found in its place with its value. */
  lemma OnePlaceEach(id: string, project: RemoteProject, sourceOrder: seq<string>, extraOrder: seq<string>)
    requires IsOrder(sourceOrder, Unnamed(project.config).Keys)
    requires IsOrder(extraOrder, Leftover(Unnamed(project.config)))
    requires forall k :: k in project.config ==> '/' !in k
    requires CanonicalKeys(Unnamed(project.config))
    ensures var rest, state := Unnamed(project.config), ReadState(id, project, sourceOrder, extraOrder);
            && (forall k :: k in project.config && (IsNamed(k) || SlotOf(k).Some?) ==>
                              Replace(k, '.', '/') !in state.extraConfig)
            && (forall j, k :: j in Leftover(rest) && k in Leftover(rest) ==>
                                 (Replace(j, '.', '/') == Replace(k, '.', '/') ==> j == k))
            && (forall j, k :: j in rest && k in rest && SlotOf(j).Some? && SlotOf(j) == SlotOf(k) ==> j == k)
            && NoConflicts(rest)
            && (forall k :: k in rest ==> Kept(k, rest, state))
  {
    var rest, state := Unnamed(project.config), ReadState(id, project, sourceOrder, extraOrder);
    assert state.extraConfig == ExtraRead(rest, extraOrder);
    forall k | k in project.config && (IsNamed(k) || SlotOf(k).Some?)
      ensures Replace(k, '.', '/') !in state.extraConfig
    {
      if Replace(k, '.', '/') in state.extraConfig {
        var l := ExtraSource(rest, extraOrder, Replace(k, '.', '/'));
        SlashFreeApart(k, l);
      }
    }
    forall j, k | j in rest && k in rest && Replace(j, '.', '/') == Replace(k, '.', '/') ensures j == k {
      SlashFreeApart(j, k);
    }
    assert Consistent(Leftover(rest), rest, DotsToSlashes);
    assert Consistent(rest.Keys, rest, SlotOf);
    ConservationExactly(id, project, sourceOrder, extraOrder);
  }

  lemma RecordIsBacked(rest: map<string, string>, order: seq<string>, p: nat)
    requires IsOrder(order, rest.Keys) && p < |Ascend(Touched(rest))|
    ensures RecordBacked(rest, Ascend(Touched(rest))[p], SourcesOf(Touched(rest), SlotsRead(rest, order))[p])
  {
    var index, slots := Ascend(Touched(rest))[p], SlotsRead(rest, order);
    if TypeOf(index) in slots {
      var k := SlotSource(rest, order, TypeOf(index));
    }
    forall n | ConfigOf(index, n) in slots ensures Backed(rest, ConfigOf(index, n), slots[ConfigOf(index, n)]) {
      var k := SlotSource(rest, order, ConfigOf(index, n));
    }
  }

  /** Nothing in the state is invented: every entry is the value of a property whose place it is,
      and there is one record for each index that some key with four or more parts denotes. */
  lemma NothingInvented(id: string, project: RemoteProject, sourceOrder: seq<string>, extraOrder: seq<string>)
    requires IsOrder(sourceOrder, Unnamed(project.config).Keys)
    requires IsOrder(extraOrder, Leftover(Unnamed(project.config)))
    ensures var rest, state := Unnamed(project.config), ReadState(id, project, sourceOrder, extraOrder);
            && |state.sources| == |Touched(rest)| == |Ascend(Touched(rest))|
            && (forall p :: 0 <= p < |state.sources| ==>
                              RecordBacked(rest, Ascend(Touched(rest))[p], state.sources[p]))
            && (forall e :: e in state.extraConfig ==> ExtraBacked(rest, e, state.extraConfig[e]))
            && (forall a: Attribute :: a in state.attributes &&
                  (a != Name && state.attributes[a] != "" ==>
                     ConfigKey(a) in project.config && project.config[ConfigKey(a)] == state.attributes[a]))
            && state.attributes[Name] == project.name && state.uiUrl == project.url
  {
    var rest := Unnamed(project.config);
    OrderLength(Ascend(Touched(rest)), Touched(rest));
    forall p | 0 <= p < |Ascend(Touched(rest))|
      ensures RecordBacked(rest, Ascend(Touched(rest))[p], SourcesOf(Touched(rest), SlotsRead(rest, sourceOrder))[p])
    {
      RecordIsBacked(rest, sourceOrder, p);
    }
    var extraConfig := ReadState(id, project, sourceOrder, extraOrder).extraConfig;
    assert extraConfig == ExtraRead(rest, extraOrder);
    forall e | e in extraConfig ensures ExtraBacked(rest, e, extraConfig[e]) {
      ExtraIsBacked(rest, extraOrder, e);
    }
  }

  lemma ExtraIsBacked(rest: map<string, string>, order: seq<string>, e: string)
    requires IsOrder(order, Leftover(rest)) && e in ExtraRead(rest, order)
    ensures ExtraBacked(rest, e, ExtraRead(rest, order)[e])
  {
    var k := ExtraSource(rest, order, e);
    assert k in Leftover(rest) && Replace(k, '.', '/') == e && rest[k] == ExtraRead(rest, order)[e];
  }

  ghost predicate Backed(rest: map<string, string>, slot: Slot, v: string) {
    exists k :: k in rest && SlotOf(k) == Some(slot) && rest[k] == v
  }

  ghost predicate RecordBacked(rest: map<string, string>, index: int, source: Source) {
    && (source.kind != "" ==> Backed(rest, TypeOf(index), source.kind))
    && (forall n :: n in source.config ==> Backed(rest, ConfigOf(index, n), source.config[n]))
  }

  ghost predicate ExtraBacked(rest: map<string, string>, e: string, v: string) {
    exists k :: k in Leftover(rest) && Replace(k, '.', '/') == e && rest[k] == v
  }
}
