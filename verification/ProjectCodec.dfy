/** Reading and writing a project: between Terraform's structured state and the flat property
    map that Rundeck stores. */
module ProjectCodec {
  import opened Wrappers
  import opened GoStrings
  import opened MapRange
  import opened Ordering
  import opened ResourceStore
  import opened ProjectKeys

  /** One `resource_model_source` block. */
  datatype Source = Source(kind: string, config: map<string, string>)

  /** The attributes of a `rundeck_project` resource; an unset named attribute is "". */
  datatype ProjectState = ProjectState(
    id: string,
    attributes: map<Attribute, string>,
    sources: seq<Source>,
    extraConfig: map<string, string>,
    uiUrl: string)
  {
    /** What the schema layer guarantees of every state. */
    ghost predicate Complete() {
      (forall a :: a in attributes) && |sources| <= MAX_INT
    }
  }

  /** A project as the server returns it. */
  datatype RemoteProject = RemoteProject(name: string, url: string, config: map<string, string>)

  /** The server: a map that returns what was last written. */
  class ProjectServer {
    var projects: map<string, RemoteProject>

    method ProjectGet(name: string) returns (r: Result<RemoteProject>)
      ensures r == if name in projects then Success(projects[name]) else Failure
    {
      r := if name in projects then Success(projects[name]) else Failure;
    }

    method ProjectConfigUpdate(name: string, config: map<string, string>) returns (r: Result<()>)
      modifies this
      ensures r == if name in old(projects) then Success(()) else Failure
      ensures projects == if name in old(projects)
                          then old(projects)[name := old(projects)[name].(config := config)] else old(projects)
    {
      if name !in projects {
        return Failure;
      }
      projects := projects[name := projects[name].(config := config)];
      return Success(());
    }
  }

  // ---------------------------------------------------------------- What the reader computes

  /** The properties left once the named attributes have been taken out. */
  ghost function Unnamed(config: map<string, string>): map<string, string> {
    map k | k in config && !IsNamed(k) :: config[k]
  }

  lemma UnnamedByTable(config: map<string, string>)
    ensures config - PROJECT_CONFIG_ATTRIBUTES.Keys == Unnamed(config)
  {
    forall k { IsNamedByTable(k); }
  }

  ghost function TouchedBy(keys: set<string>): set<int> {
    set k | k in keys && RecordIndex(k).Some? :: RecordIndex(k).value
  }

  lemma TouchedByOneMore(keys: set<string>, k: string)
    ensures TouchedBy(keys + {k}) ==
            TouchedBy(keys) + if RecordIndex(k).Some? then {RecordIndex(k).value} else {}
  {
  }

  /** The indices for which the reader creates a source record. */
  ghost function Touched(rest: map<string, string>): set<int> {
    TouchedBy(rest.Keys)
  }

  /** The keys that the reader does not consume and so copies into `extra_config`. */
  ghost function Leftover(rest: map<string, string>): set<string> {
    set k | k in rest && SlotOf(k).None?
  }

  ghost function KindAt(index: int, slots: map<Slot, string>): string {
    if TypeOf(index) in slots then slots[TypeOf(index)] else ""
  }

  ghost function ConfigAt(index: int, slots: map<Slot, string>): (config: map<string, string>)
    ensures forall n :: n in config <==> ConfigOf(index, n) in slots
    ensures forall n :: n in config ==> config[n] == slots[ConfigOf(index, n)]
  {
    map s | s in slots && s.ConfigOf? && s.index == index :: s.name := slots[s]
  }

  /** The sources in ascending order of their indices. */
  ghost function SourcesOf(indices: set<int>, slots: map<Slot, string>): (sources: seq<Source>)
    ensures |sources| == |Ascend(indices)|
    ensures forall p :: 0 <= p < |sources| ==>
                          sources[p] == Source(KindAt(Ascend(indices)[p], slots), ConfigAt(Ascend(indices)[p], slots))
  {
    var order := Ascend(indices);
    seq(|order|, p requires 0 <= p < |order| => Source(KindAt(order[p], slots), ConfigAt(order[p], slots)))
  }

  ghost function Ascend(indices: set<int>): (order: seq<int>)
    ensures Lists(order, indices, IntLe)
  {
    IntLeTotal();
    Sorted(indices, IntLe)
  }

  lemma AscendIncreases(indices: set<int>, p: nat, q: nat)
    requires p < q < |Ascend(indices)|
    ensures Ascend(indices)[p] < Ascend(indices)[q]
  {
    var order := Ascend(indices);
    assert IntLe(order[p], order[q]);
    assert order[p] != order[q];
  }

  ghost function AttributeValue(config: map<string, string>, a: Attribute): string {
    if ConfigKey(a) in config then config[ConfigKey(a)] else ""
  }

  ghost function NamedAttributes(project: RemoteProject): map<Attribute, string> {
    (map a: Attribute :: AttributeValue(project.config, a))[Name := project.name]
  }

  /** The state after a read whose two loops over properties visit keys in the given orders. */
  ghost function ReadState(id: string, project: RemoteProject, sourceOrder: seq<string>, extraOrder: seq<string>)
    : ProjectState
    requires IsOrder(sourceOrder, Unnamed(project.config).Keys)
    requires IsOrder(extraOrder, Leftover(Unnamed(project.config)))
  {
    var rest := Unnamed(project.config);
    OrderStaysInside(sourceOrder, rest.Keys, rest);
    OrderStaysInside(extraOrder, Leftover(rest), rest);
    ProjectState(id, NamedAttributes(project),
                 SourcesOf(Touched(rest), Assign(sourceOrder, rest, SlotOf)),
                 Assign(extraOrder, rest, DotsToSlashes),
                 project.url)
  }

  /** `state` is what some read of `project` leaves behind. */
  ghost predicate ReadsAs(id: string, project: RemoteProject, sourceOrder: seq<string>, extraOrder: seq<string>,
                          state: ProjectState)
  {
    && IsOrder(sourceOrder, Unnamed(project.config).Keys)
    && IsOrder(extraOrder, Leftover(Unnamed(project.config)))
    && state == ReadState(id, project, sourceOrder, extraOrder)
  }

  lemma OrderStaysInside<T, V>(order: seq<T>, keys: set<T>, m: map<T, V>)
    requires IsOrder(order, keys) && keys <= m.Keys
    ensures forall k :: k in order ==> k in m
  {
    assert forall k :: k in order ==> k in Elements(order);
  }

  // ---------------------------------------------------------------- ReadProject

  ghost predicate Pairs(table: map<string, Attribute>) {
    forall j, k :: j in table && k in table && table[j] == table[k] ==> j == k
  }

  lemma TablePairs()
    ensures Pairs(PROJECT_CONFIG_ATTRIBUTES)
  {
    AttributeKeys();
  }

  /** The loop over the named attributes: they move from the property map into the state. */
  method ReadAttributes(d: ResourceData<ProjectState>, config: map<string, string>, table: map<string, Attribute>)
      returns (projectConfig: map<string, string>)
    requires d.state.Complete() && Pairs(table)
    modifies d
    ensures projectConfig == config - table.Keys
    ensures d.state == old(d.state).(attributes := d.state.attributes)
    ensures forall a :: a in d.state.attributes
    ensures forall k :: k in table ==> d.state.attributes[table[k]] == if k in config then config[k] else ""
  {
    projectConfig := config;
    var todo := table.Keys;
    while todo != {}
      invariant todo <= table.Keys
      invariant projectConfig == config - (table.Keys - todo)
      invariant d.state == old(d.state).(attributes := d.state.attributes)
      invariant forall a :: a in d.state.attributes
      invariant forall k :: k in table && k !in todo ==>
                              d.state.attributes[table[k]] == if k in config then config[k] else ""
    {
      var configKey :| configKey in todo;
      todo := todo - {configKey};
      d.state := d.state.(attributes := d.state.attributes[table[configKey] := ""]);
      if configKey in projectConfig {
        d.state := d.state.(attributes := d.state.attributes[table[configKey] := projectConfig[configKey]]);
        projectConfig := projectConfig - {configKey};
      }
    }
  }

  ghost predicate RecordsMatch(kinds: map<int, Option<string>>, configs: map<int, map<string, string>>,
                               slots: map<Slot, string>)
  {
    && kinds.Keys == configs.Keys
    && (forall s :: s in slots ==> s.index in configs)
    && (forall i, n :: i in configs ==> (n in configs[i] <==> ConfigOf(i, n) in slots))
    && (forall i, n :: i in configs && n in configs[i] ==> configs[i][n] == slots[ConfigOf(i, n)])
    && (forall i :: i in kinds ==> kinds[i] == if TypeOf(i) in slots then Some(slots[TypeOf(i)]) else None)
  }

  lemma CreateRecord(kinds: map<int, Option<string>>, configs: map<int, map<string, string>>,
                     slots: map<Slot, string>, i: int)
    requires RecordsMatch(kinds, configs, slots) && i !in configs
    ensures RecordsMatch(kinds[i := None], configs[i := map[]], slots)
  {
    assert forall n :: ConfigOf(i, n) !in slots by {
      assert forall n :: ConfigOf(i, n).index == i;
    }
  }

  lemma FillType(kinds: map<int, Option<string>>, configs: map<int, map<string, string>>,
                 slots: map<Slot, string>, i: int, v: string)
    requires RecordsMatch(kinds, configs, slots) && i in configs
    ensures RecordsMatch(kinds[i := Some(v)], configs, slots[TypeOf(i) := v])
  {
  }

  lemma FillConfig(kinds: map<int, Option<string>>, configs: map<int, map<string, string>>,
                   slots: map<Slot, string>, i: int, n: string, v: string)
    requires RecordsMatch(kinds, configs, slots) && i in configs
    ensures RecordsMatch(kinds, configs[i := configs[i][n := v]], slots[ConfigOf(i, n) := v])
  {
  }

  /** The body of the source loop, for one key and its value. */
  method ReadSourceKey(configKey: string, v: string,
                       kinds: map<int, Option<string>>, configs: map<int, map<string, string>>,
                       ghost slots: map<Slot, string>)
      returns (kinds': map<int, Option<string>>, configs': map<int, map<string, string>>, consumed: bool)
    requires RecordsMatch(kinds, configs, slots)
    ensures consumed == SlotOf(configKey).Some?
    ensures RecordsMatch(kinds', configs', if consumed then slots[SlotOf(configKey).value := v] else slots)
    ensures configs'.Keys == configs.Keys + if RecordIndex(configKey).Some? then {RecordIndex(configKey).value} else {}
  {
    kinds', configs' := kinds, configs;
    if !(SOURCE_PREFIX <= configKey) {
      return kinds', configs', false;
    }
    var nameParts := Split(configKey, '.');
    if |nameParts| < 4 {
      return kinds', configs', false;
    }
    var parsed := Atoi(nameParts[2]);
    if parsed.None? {
      return kinds', configs', false;
    }
    var index := parsed.value;
    if index !in kinds' {
      CreateRecord(kinds', configs', slots, index);
      configs' := configs'[index := map[]];
      kinds' := kinds'[index := None];
    }
    if nameParts[3] == "type" {
      if |nameParts| != 4 {
        return kinds', configs', false;
      }
      FillType(kinds', configs', slots, index, v);
      kinds' := kinds'[index := Some(v)];
    } else if nameParts[3] == "config" {
      if |nameParts| != 5 {
        return kinds', configs', false;
      }
      FillConfig(kinds', configs', slots, index, nameParts[4], v);
      configs' := configs'[index := configs'[index][nameParts[4] := v]];
    } else {
      return kinds', configs', false;
    }
    return kinds', configs', true;
  }

  /** What is left of the properties when those not in `todo` have been visited. */
  ghost predicate Remaining(projectConfig: map<string, string>, rest: map<string, string>, todo: set<string>) {
    && (forall k :: k in projectConfig <==> k in rest && (k in todo || SlotOf(k).None?))
    && (forall k :: k in projectConfig ==> projectConfig[k] == rest[k])
  }

  lemma RemainingNext(projectConfig: map<string, string>, rest: map<string, string>, todo: set<string>, k: string)
    requires Remaining(projectConfig, rest, todo) && k in todo && k in rest
    ensures k in projectConfig && projectConfig[k] == rest[k]
    ensures Remaining(if SlotOf(k).Some? then projectConfig - {k} else projectConfig, rest, todo - {k})
  {
  }

  /** The loop over the remaining properties: source properties are parsed into records and deleted. */
  method ReadSources(rest: map<string, string>)
      returns (kinds: map<int, Option<string>>, configs: map<int, map<string, string>>,
               projectConfig: map<string, string>, ghost order: seq<string>)
    ensures IsOrder(order, rest.Keys)
    ensures configs.Keys == Touched(rest)
    ensures forall k :: k in order ==> k in rest
    ensures RecordsMatch(kinds, configs, Assign(order, rest, SlotOf))
    ensures projectConfig.Keys == Leftover(rest)
    ensures forall k :: k in projectConfig ==> projectConfig[k] == rest[k]
  {
    kinds, configs, projectConfig, order := map[], map[], rest, [];
    var todo := rest.Keys;
    while todo != {}
      invariant todo <= rest.Keys
      invariant IsOrder(order, rest.Keys - todo)
      invariant forall k :: k in order ==> k in rest
      invariant configs.Keys == TouchedBy(rest.Keys - todo)
      invariant RecordsMatch(kinds, configs, Assign(order, rest, SlotOf))
      invariant Remaining(projectConfig, rest, todo)
    {
      var configKey :| configKey in todo;
      RemainingNext(projectConfig, rest, todo, configKey);
      VisitNext(order, rest.Keys, todo, configKey);
      AssignVisit(order, configKey, rest, SlotOf);
      TouchedByOneMore(rest.Keys - todo, configKey);
      assert rest.Keys - (todo - {configKey}) == rest.Keys - todo + {configKey};
      todo := todo - {configKey};
      var consumed;
      kinds, configs, consumed :=
        ReadSourceKey(configKey, projectConfig[configKey], kinds, configs, Assign(order, rest, SlotOf));
      order := order + [configKey];
      if consumed {
        projectConfig := projectConfig - {configKey};
      }
    }
  }

  lemma RecordMeaning(kinds: map<int, Option<string>>, configs: map<int, map<string, string>>,
                      slots: map<Slot, string>, i: int)
    requires RecordsMatch(kinds, configs, slots) && i in configs
    ensures configs[i] == ConfigAt(i, slots) && KindAt(i, slots) == if kinds[i].Some? then kinds[i].value else ""
  {
    SameMap(configs[i], ConfigAt(i, slots));
  }

  /** The indices collected in some order and then sorted. */
  method SortedIndices(keys: set<int>) returns (indices: seq<int>)
    ensures indices == Ascend(keys)
  {
    indices := Collect(keys);
    ghost var collected := indices;
    IntLeTotal();
    indices := Sort(indices, IntLe);
    PermutationIsOrder(indices, collected, keys);
    ListingIsUnique(indices, Ascend(keys), keys, IntLe);
  }

  /** The source records in ascending order of index, after sorting the indices. */
  method ListSources(kinds: map<int, Option<string>>, configs: map<int, map<string, string>>,
                     ghost slots: map<Slot, string>)
      returns (sources: seq<Source>)
    requires RecordsMatch(kinds, configs, slots)
    ensures sources == SourcesOf(configs.Keys, slots)
  {
    var indices := SortedIndices(kinds.Keys);
    sources := [];
    for n := 0 to |indices|
      invariant |sources| == n
      invariant forall p :: 0 <= p < n ==> sources[p] == Source(KindAt(indices[p], slots), ConfigAt(indices[p], slots))
    {
      var index := indices[n];
      assert index in Elements(indices);
      RecordMeaning(kinds, configs, slots, index);
      var kind := if kinds[index].Some? then kinds[index].value else "";
      sources := sources + [Source(kind, configs[index])];
    }
  }

  /** A loop that copies a map under relabelled keys. */
  method Relabel(m: map<string, string>, rename: string -> Option<string>)
      returns (relabelled: map<string, string>, ghost order: seq<string>)
    requires forall k :: rename(k).Some?
    ensures IsOrder(order, m.Keys) && forall k :: k in order ==> k in m
    ensures relabelled == Assign(order, m, rename)
  {
    relabelled, order := map[], [];
    var todo := m.Keys;
    while todo != {}
      invariant todo <= m.Keys
      invariant IsOrder(order, m.Keys - todo)
      invariant forall k :: k in order ==> k in m
      invariant relabelled == Assign(order, m, rename)
    {
      var k :| k in todo;
      VisitNext(order, m.Keys, todo, k);
      AssignVisit(order, k, m, rename);
      todo := todo - {k};
      order := order + [k];
      relabelled := relabelled[rename(k).value := m[k]];
    }
  }

  /** The two property loops of the reader, on the properties that are not named attributes. */
  method ReadUnnamed(d: ResourceData<ProjectState>, rest: map<string, string>)
      returns (ghost sourceOrder: seq<string>, ghost extraOrder: seq<string>)
    modifies d
    ensures IsOrder(sourceOrder, rest.Keys) && forall k :: k in sourceOrder ==> k in rest
    ensures IsOrder(extraOrder, Leftover(rest)) && forall k :: k in extraOrder ==> k in rest
    ensures d.state == old(d.state).(sources := SourcesOf(Touched(rest), Assign(sourceOrder, rest, SlotOf)),
                                     extraConfig := Assign(extraOrder, rest, DotsToSlashes))
  {
    var kinds, configs, projectConfig;
    kinds, configs, projectConfig, sourceOrder := ReadSources(rest);
    var sources := ListSources(kinds, configs, Assign(sourceOrder, rest, SlotOf));
    d.state := d.state.(sources := sources);
    var extraConfig;
    extraConfig, extraOrder := Relabel(projectConfig, DotsToSlashes);
    AssignSubmap(extraOrder, projectConfig, rest, DotsToSlashes);
    d.state := d.state.(extraConfig := extraConfig);
  }

  lemma ReadParts(state: ProjectState, project: RemoteProject, rest: map<string, string>,
                  sourceOrder: seq<string>, extraOrder: seq<string>)
    requires rest == Unnamed(project.config)
    requires IsOrder(sourceOrder, rest.Keys) && forall k :: k in sourceOrder ==> k in rest
    requires IsOrder(extraOrder, Leftover(rest)) && forall k :: k in extraOrder ==> k in rest
    requires state.attributes == NamedAttributes(project) && state.uiUrl == project.url
    requires state.sources == SourcesOf(Touched(rest), Assign(sourceOrder, rest, SlotOf))
    requires state.extraConfig == Assign(extraOrder, rest, DotsToSlashes)
    ensures ReadsAs(state.id, project, sourceOrder, extraOrder, state)
  {
  }

  /** The parsing half of `ReadProject`. */
  method ParseProject(d: ResourceData<ProjectState>, project: RemoteProject)
      returns (ghost sourceOrder: seq<string>, ghost extraOrder: seq<string>)
    requires d.state.Complete()
    modifies d
    ensures ReadsAs(old(d.state.id), project, sourceOrder, extraOrder, d.state)
  {
    TablePairs();
    var projectConfig := ReadAttributes(d, project.config, PROJECT_CONFIG_ATTRIBUTES);
    ReadAttributesMeaning(d.state.attributes, project);
    UnnamedByTable(project.config);
    sourceOrder, extraOrder := ReadUnnamed(d, projectConfig);
    d.state := d.state.(attributes := d.state.attributes[Name := project.name]);
    d.state := d.state.(uiUrl := project.url);
    ReadParts(d.state, project, projectConfig, sourceOrder, extraOrder);
  }

  /** `ReadProject`: refresh the state from the server's copy of the project. */
  method ReadProject(d: ResourceData<ProjectState>, server: ProjectServer)
      returns (r: Result<()>, ghost sourceOrder: seq<string>, ghost extraOrder: seq<string>)
    requires d.state.Complete()
    modifies d
    ensures r.Success? <==> old(d.state.id) in server.projects
    ensures r.Failure? ==> d.state == old(d.state)
    ensures r.Success? ==>
              ReadsAs(old(d.state.id), server.projects[old(d.state.id)], sourceOrder, extraOrder, d.state)
  {
    sourceOrder, extraOrder := [], [];
    var got := server.ProjectGet(d.state.id);
    if got.Failure? {
      return Failure, sourceOrder, extraOrder;
    }
    sourceOrder, extraOrder := ParseProject(d, got.value);
    return Success(()), sourceOrder, extraOrder;
  }

  lemma ReadAttributesMeaning(attributes: map<Attribute, string>, project: RemoteProject)
    requires forall a :: a in attributes
    requires forall k :: k in PROJECT_CONFIG_ATTRIBUTES ==>
                           attributes[PROJECT_CONFIG_ATTRIBUTES[k]] ==
                             if k in project.config then project.config[k] else ""
    ensures attributes[Name := project.name] == NamedAttributes(project)
  {
    forall a: Attribute ensures attributes[a] == AttributeValue(project.config, a) {
      AttributeKeys();
      assert ConfigKey(a) in PROJECT_CONFIG_ATTRIBUTES;
    }
    SameAttributes(attributes, project);
  }

  lemma SameAttributes(attributes: map<Attribute, string>, project: RemoteProject)
    requires forall a :: a in attributes
    requires forall a :: AttributeValue(project.config, a) == attributes[a]
    ensures NamedAttributes(project) == attributes[Name := project.name]
  {
  }

  // ---------------------------------------------------------------- What the writer computes

  lemma ConfigKeysInjective()
    ensures Injective(ConfigKey)
  {
    AttributeKeys();
  }

  /** The properties that the update sends for the named attributes. */
  ghost function NamedPart(attributes: map<Attribute, string>): (named: map<string, string>)
    ensures Injective(ConfigKey)
    ensures forall k :: k in named ==> named[k] != ""
  {
    ConfigKeysInjective();
    Relabelled(map a | a in attributes && attributes[a] != "" :: attributes[a], ConfigKey)
  }

  ghost function TablePart(attributes: map<Attribute, string>, table: map<string, Attribute>): map<string, string>
    requires forall a :: a in attributes
  {
    map k | k in table && attributes[table[k]] != "" :: attributes[table[k]]
  }

  lemma NamedPartByTable(attributes: map<Attribute, string>)
    requires forall a :: a in attributes
    ensures TablePart(attributes, PROJECT_CONFIG_ATTRIBUTES) == NamedPart(attributes)
  {
    AttributeKeys();
    var t, n := TablePart(attributes, PROJECT_CONFIG_ATTRIBUTES), NamedPart(attributes);
    forall k | k in t ensures k in n && n[k] == t[k] {
      assert ConfigKey(PROJECT_CONFIG_ATTRIBUTES[k]) == k;
    }
    forall k | k in n ensures k in t {
      var a :| a in attributes && attributes[a] != "" && ConfigKey(a) == k;
    }
    SameMap(t, n);
  }

  /** The slots that a list of sources has values for. */
  ghost predicate Holds(sources: seq<Source>, slot: Slot) {
    1 <= slot.index <= |sources| && (slot.ConfigOf? ==> slot.name in sources[slot.index - 1].config)
  }

  ghost function ValueAt(sources: seq<Source>, slot: Slot): string
    requires Holds(sources, slot)
  {
    var source := sources[slot.index - 1];
    match slot
    case TypeOf(_) => source.kind
    case ConfigOf(_, name) => source.config[name]
  }

  ghost function SourceSlots(sources: seq<Source>): (slots: set<Slot>)
    ensures forall s :: s in slots <==> Holds(sources, s)
  {
    var slots := (set i | 1 <= i <= |sources| :: TypeOf(i))
                 + (set i, n | 1 <= i <= |sources| && n in sources[i - 1].config :: ConfigOf(i, n));
    assert forall s :: Holds(sources, s) ==> s == if s.TypeOf? then TypeOf(s.index) else ConfigOf(s.index, s.name);
    slots
  }

  lemma SourceKeysInjective()
    ensures Injective(SourceKey)
  {
    forall a, b | SourceKey(a) == SourceKey(b) ensures a == b { SourceKeyInjective(a, b); }
  }

  /** The values of all slots of a list of sources. */
  ghost function SlotValues(sources: seq<Source>): map<Slot, string> {
    map s | s in SourceSlots(sources) :: ValueAt(sources, s)
  }

  /** Slots written out under their property names. */
  ghost function Flatten(slots: map<Slot, string>): (properties: map<string, string>)
    ensures Injective(SourceKey)
    ensures forall k :: k in properties ==> SOURCE_PREFIX <= k
  {
    SourceKeysInjective();
    Relabelled(slots, SourceKey)
  }

  lemma FlattenUpdate(base: map<string, string>, slots: map<Slot, string>, s: Slot, v: string)
    ensures base + Flatten(slots[s := v]) == (base + Flatten(slots))[SourceKey(s) := v]
  {
    SourceKeysInjective();
    RelabelledUpdate(slots, s, v, SourceKey);
    OverrideUpdate(base, Flatten(slots), SourceKey(s), v);
  }

  /** The properties that the update sends for the sources. */
  ghost function SourcePart(sources: seq<Source>): map<string, string> {
    Flatten(SlotValues(sources))
  }

  /** The property map that an update sends, when the loop over `extra_config` visits keys in `order`. */
  ghost function UpdateMap(state: ProjectState, order: seq<string>): map<string, string>
    requires (forall a :: a in state.attributes) && IsOrder(order, state.extraConfig.Keys)
  {
    OrderStaysInside(order, state.extraConfig.Keys, state.extraConfig);
    Assign(order, state.extraConfig, SlashesToDots) + NamedPart(state.attributes) + SourcePart(state.sources)
  }

  // ---------------------------------------------------------------- UpdateProject

  /** The loop over the named attributes: the non-empty ones overwrite what `extra_config` set. */
  method WriteAttributes(updateMap: map<string, string>, attributes: map<Attribute, string>,
                         table: map<string, Attribute>)
      returns (updated: map<string, string>)
    requires forall a :: a in attributes
    ensures updated == updateMap + TablePart(attributes, table)
  {
    updated := updateMap;
    ghost var done := map[];
    var todo := table.Keys;
    while todo != {}
      invariant todo <= table.Keys
      invariant updated == updateMap + done
      invariant forall k :: k in done <==> k in table && k !in todo && attributes[table[k]] != ""
      invariant forall k :: k in done ==> done[k] == attributes[table[k]]
    {
      var configKey :| configKey in todo;
      todo := todo - {configKey};
      var v := attributes[table[configKey]];
      if v != "" {
        OverrideUpdate(updateMap, done, configKey, v);
        done := done[configKey := v];
        updated := updated[configKey := v];
      }
    }
    SameMap(done, TablePart(attributes, table));
  }

  /** The slots of the first `index - 1` sources, and those of one more source whose config
      entries in `todo` are still to be written. */
  ghost predicate Written(slots: map<Slot, string>, before: map<Slot, string>, index: int, source: Source,
                          todo: set<string>)
  {
    && (forall s :: s in slots <==> s in before || s == TypeOf(index) ||
                                    (s.ConfigOf? && s.index == index && s.name in source.config && s.name !in todo))
    && (forall s :: s in slots ==>
                      slots[s] == if s == TypeOf(index) then source.kind
                                  else if s.ConfigOf? && s.index == index && s.name in source.config
                                       then source.config[s.name]
                                  else if s in before then before[s] else "")
  }

  lemma WrittenType(before: map<Slot, string>, index: int, source: Source)
    requires forall s :: s in before ==> s.index < index
    ensures Written(before[TypeOf(index) := source.kind], before, index, source, source.config.Keys)
  {
  }

  lemma WrittenEntry(slots: map<Slot, string>, before: map<Slot, string>, index: int, source: Source,
                     todo: set<string>, k: string)
    requires Written(slots, before, index, source, todo) && k in todo && todo <= source.config.Keys
    requires forall s :: s in before ==> s.index < index
    ensures Written(slots[ConfigOf(index, k) := source.config[k]], before, index, source, todo - {k})
  {
  }

  lemma TypeKeyText(prefix: string, index: int)
    requires prefix == SOURCE_PREFIX + Itoa(index) + "."
    ensures prefix + "type" == SourceKey(TypeOf(index))
  {
  }

  lemma ConfigKeyText(prefix: string, index: int, n: string)
    requires prefix == SOURCE_PREFIX + Itoa(index) + "."
    ensures prefix + "config." + n == SourceKey(ConfigOf(index, n))
  {
  }

  /** The body of the loop over sources. */
  method WriteSource(updateMap: map<string, string>, index: int, source: Source,
                     ghost base: map<string, string>, ghost before: map<Slot, string>)
      returns (updated: map<string, string>, ghost slots: map<Slot, string>)
    requires updateMap == base + Flatten(before)
    requires forall s :: s in before ==> s.index < index
    ensures Written(slots, before, index, source, {})
    ensures updated == base + Flatten(slots)
  {
    var attrKeyPrefix := "resources.source." + Itoa(index) + ".";
    var typeKey := attrKeyPrefix + "type";
    var configKeyPrefix := attrKeyPrefix + "config.";
    WrittenType(before, index, source);
    TypeKeyText(attrKeyPrefix, index);
    FlattenUpdate(base, before, TypeOf(index), source.kind);
    updated := updateMap[typeKey := source.kind];
    slots := before[TypeOf(index) := source.kind];
    var todo := source.config.Keys;
    while todo != {}
      invariant todo <= source.config.Keys
      invariant Written(slots, before, index, source, todo)
      invariant updated == base + Flatten(slots)
    {
      var k :| k in todo;
      WrittenEntry(slots, before, index, source, todo, k);
      ConfigKeyText(attrKeyPrefix, index, k);
      FlattenUpdate(base, slots, ConfigOf(index, k), source.config[k]);
      todo := todo - {k};
      slots := slots[ConfigOf(index, k) := source.config[k]];
      updated := updated[configKeyPrefix + k := source.config[k]];
    }
  }

  lemma SlotValuesGrow(sources: seq<Source>, i: nat, slots: map<Slot, string>)
    requires i < |sources|
    requires Written(slots, SlotValues(sources[..i]), i + 1, sources[i], {})
    ensures slots == SlotValues(sources[..i + 1])
  {
    forall s
      ensures s in slots <==> Holds(sources[..i + 1], s)
      ensures s in slots ==> slots[s] == ValueAt(sources[..i + 1], s)
    {
      assert Holds(sources[..i], s) ==> s in SlotValues(sources[..i]);
    }
  }

  /** The loop over the ordered sources, numbering them from 1. */
  method WriteSources(updateMap: map<string, string>, sources: seq<Source>)
      returns (updated: map<string, string>)
    ensures updated == updateMap + SourcePart(sources)
  {
    updated := updateMap;
    ghost var slots := map[];
    assert Flatten(map[]) == map[];
    for i := 0 to |sources|
      invariant slots == SlotValues(sources[..i])
      invariant updated == updateMap + Flatten(slots)
    {
      ghost var before := slots;
      updated, slots := WriteSource(updated, i + 1, sources[i], updateMap, before);
      SlotValuesGrow(sources, i, slots);
    }
    assert sources[..|sources|] == sources;
  }

  /** The flattening half of `UpdateProject`. */
  method FlattenProject(state: ProjectState) returns (updateMap: map<string, string>, ghost order: seq<string>)
    requires state.Complete()
    ensures IsOrder(order, state.extraConfig.Keys)
    ensures updateMap == UpdateMap(state, order)
    ensures forall k :: k in SourcePart(state.sources) ==>
            k in updateMap && updateMap[k] == SourcePart(state.sources)[k]
  {
    updateMap, order := Relabel(state.extraConfig, SlashesToDots);
    NamedPartByTable(state.attributes);
    updateMap := WriteAttributes(updateMap, state.attributes, PROJECT_CONFIG_ATTRIBUTES);
    updateMap := WriteSources(updateMap, state.sources);
  }

  /** The sending half of `UpdateProject`. */
  method SendAndRefresh(d: ResourceData<ProjectState>, server: ProjectServer, updateMap: map<string, string>)
      returns (r: Result<()>, ghost sourceOrder: seq<string>, ghost extraOrder: seq<string>)
    requires d.state.Complete()
    modifies d, server
    ensures r.Success? <==> old(d.state.id) in old(server.projects)
    ensures r.Failure? ==> d.state == old(d.state) && server.projects == old(server.projects)
    ensures r.Success? ==>
              var id := old(d.state.id);
              && server.projects == old(server.projects)[id := old(server.projects)[id].(config := updateMap)]
              && ReadsAs(id, server.projects[id], sourceOrder, extraOrder, d.state)
  {
    sourceOrder, extraOrder := [], [];
    var projectName := d.state.id;
    var sent := server.ProjectConfigUpdate(projectName, updateMap);
    if sent.Failure? {
      return Failure, sourceOrder, extraOrder;
    }
    r, sourceOrder, extraOrder := ReadProject(d, server);
  }

  /** `UpdateProject`: send the flattened state, then refresh from what the server now holds. */
  method UpdateProject(d: ResourceData<ProjectState>, server: ProjectServer)
      returns (r: Result<()>, ghost writeOrder: seq<string>,
               ghost sourceOrder: seq<string>, ghost extraOrder: seq<string>)
    requires d.state.Complete()
    modifies d, server
    ensures r.Success? <==> old(d.state.id) in old(server.projects)
    ensures r.Failure? ==> d.state == old(d.state) && server.projects == old(server.projects)
    ensures IsOrder(writeOrder, old(d.state).extraConfig.Keys)
    ensures r.Success? ==>
              var id := old(d.state.id);
              && id in server.projects
              && server.projects == old(server.projects)[id := server.projects[id]]
              && server.projects[id] == old(server.projects)[id].(config := UpdateMap(old(d.state), writeOrder))
              && ReadsAs(id, server.projects[id], sourceOrder, extraOrder, d.state)
  {
    var updateMap;
    updateMap, writeOrder := FlattenProject(d.state);
    r, sourceOrder, extraOrder := SendAndRefresh(d, server, updateMap);
  }
}
