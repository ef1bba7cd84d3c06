/** The property names of a project, letter by letter: which ones an update sends and a refresh takes. */
module ProjectNames {
  import opened Wrappers
  import opened GoStrings
  import opened MapRange
  import opened ProjectKeys
  import opened ProjectCodec
  import opened ProjectReading
  import opened ProjectRoundTrip
  import opened ProjectSettling

  // ---------------------------------------------------------------- Named attributes

  /** The property of each named attribute. */
  ghost predicate Names(property: string, a: Attribute) {
    match a
    case Name => property == "project.name"
    case Description => property == "project.description"
    case FileCopierPlugin => property == "service.FileCopier.default.provider"
    case NodeExecutorPlugin => property == "service.NodeExecutor.default.provider"
    case SshAuthenticationType => property == "project.ssh-authentication"
    case SshKeyStoragePath => property == "project.ssh-key-storage-path"
    case SshKeyFilePath => property == "project.ssh-keypath"
  }

  /** An update sends every named attribute that is set, under its name. */
  lemma NamedAttributeIsSent(state: ProjectState, order: seq<string>, property: string, a: Attribute)
    requires state.Complete() && IsOrder(order, state.extraConfig.Keys)
    requires Names(property, a) && state.attributes[a] != ""
    ensures property in UpdateMap(state, order) && UpdateMap(state, order)[property] == state.attributes[a]
  {
    WriterLayers(state, order, property);
  }

  /** A refresh takes every named attribute from the property of its name; the name itself is the
      project's own. */
  lemma NamedAttributeIsRead(id: string, project: RemoteProject, sourceOrder: seq<string>, extraOrder: seq<string>,
                             state: ProjectState, property: string, a: Attribute)
    requires ReadsAs(id, project, sourceOrder, extraOrder, state) && Names(property, a)
    ensures state.id == id && a in state.attributes
    ensures state.attributes[a] == if a == Name then project.name
                                   else if property in project.config then project.config[property] else ""
  {
  }

  // ---------------------------------------------------------------- The grammar of source properties

  /** `key` names something under a numbered source, whose number is spelled `segment`. */
  ghost predicate IsNumbered(key: string, segment: string, tail: string) {
    '.' !in segment && key == "resources.source." + segment + "." + tail
  }

  lemma NumberedParts(segment: string, tail: string)
    requires '.' !in segment
    ensures var key := "resources.source." + segment + "." + tail;
            var parts := Split(key, '.');
            SOURCE_PREFIX <= key && |parts| >= 4 && parts[2] == segment && parts[3..] == Split(tail, '.')
  {
    NumberedKeyParts(segment, tail);
    assert SOURCE_PREFIX + segment + ['.'] + tail == "resources.source." + segment + "." + tail;
  }

  /** A key with the prefix and at least four parts is a numbered one. */
  lemma PartsNumbered(key: string)
    requires SOURCE_PREFIX <= key && |Split(key, '.')| >= 4
    ensures var parts := Split(key, '.');
            IsNumbered(key, parts[2], Join(parts[3..], '.'))
  {
    var stem, rest := SOURCE_PREFIX[..16], key[17..];
    PrefixParts(stem);
    assert key == stem + ['.'] + rest;
    SplitAppend(stem, rest, '.');
    var parts, inner := Split(key, '.'), Split(rest, '.');
    assert inner == parts[2..];
    JoinSplit(rest, '.');
    assert inner[1..] == parts[3..];
    assert rest == inner[0] + ['.'] + Join(inner[1..], '.');
    assert key == "resources.source." + parts[2] + "." + Join(parts[3..], '.');
  }

  /** A record is created for exactly the keys `resources.source.<number>.<anything>`, whatever the
      spelling of the number. */
  lemma RecordKeyExactly(key: string, index: int)
    ensures RecordIndex(key) == Some(index) <==>
            exists segment, tail :: IsNumbered(key, segment, tail) && Atoi(segment) == Some(index)
  {
    if RecordIndex(key) == Some(index) {
      PartsNumbered(key);
    }
    if segment, tail :| IsNumbered(key, segment, tail) && Atoi(segment) == Some(index) {
      NumberedParts(segment, tail);
    }
  }

  lemma TailOfType(tail: string)
    ensures Split(tail, '.') == ["type"] <==> tail == "type"
  {
    SplitWithoutSeparator("type", '.');
    JoinSplit(tail, '.');
  }

  lemma PartsOfConfig(name: string)
    ensures Split("config." + name, '.') == ["config"] + Split(name, '.')
  {
    SplitWithoutSeparator("config", '.');
    SplitAppend("config", name, '.');
    assert "config" + ['.'] + name == "config." + name;
  }

  lemma TwoParts(tail: string, first: string, second: string)
    requires Split(tail, '.') == [first, second]
    ensures tail == first + ['.'] + second && '.' !in second
  {
    var parts := Split(tail, '.');
    JoinSplit(tail, '.');
    assert parts[1] == second && parts[1..] == [second];
  }

  lemma TailOfConfig(tail: string, name: string)
    ensures Split(tail, '.') == ["config", name] <==> tail == "config." + name && '.' !in name
  {
    assert "config" + ['.'] == "config.";
    if '.' !in name {
      PartsOfConfig(name);
      SplitWithoutSeparator(name, '.');
      assert ["config"] + [name] == ["config", name];
    }
    if Split(tail, '.') == ["config", name] {
      TwoParts(tail, "config", name);
    }
  }

  lemma SlotByParts(key: string, segment: string, tail: string)
    requires IsNumbered(key, segment, tail) && Atoi(segment).Some?
    ensures var i, parts := Atoi(segment).value, Split(tail, '.');
            && RecordIndex(key) == Some(i)
            && (SlotOf(key) == Some(TypeOf(i)) <==> parts == ["type"])
            && (forall name :: SlotOf(key) == Some(ConfigOf(i, name)) <==> parts == ["config", name])
  {
    NumberedParts(segment, tail);
    var parts := Split(key, '.');
    assert |parts| == 3 + |parts[3..]|;
    assert parts[3..][0] == parts[3];
    assert |parts| == 5 ==> parts[3..] == ["config", parts[4]] || parts[3] != "config";
    assert |"type"| != |"config"|;
  }

  /** The type of source `index` is taken from exactly the keys `resources.source.<number>.type`. */
  lemma TypeKeyExactly(key: string, index: int)
    ensures SlotOf(key) == Some(TypeOf(index)) <==>
            exists segment :: IsNumbered(key, segment, "type") && Atoi(segment) == Some(index)
  {
    if SlotOf(key) == Some(TypeOf(index)) {
      PartsNumbered(key);
      var segment, tail := Split(key, '.')[2], Join(Split(key, '.')[3..], '.');
      SlotByParts(key, segment, tail);
      TailOfType(tail);
      assert IsNumbered(key, segment, "type");
    }
    if segment :| IsNumbered(key, segment, "type") && Atoi(segment) == Some(index) {
      SlotByParts(key, segment, "type");
      TailOfType("type");
    }
  }

  /** A config entry of source `index` is taken from exactly the keys
      `resources.source.<number>.config.<name>` whose name has no dot. */
  lemma ConfigKeyExactly(key: string, index: int, name: string)
    ensures SlotOf(key) == Some(ConfigOf(index, name)) <==>
            '.' !in name && exists segment :: IsNumbered(key, segment, "config." + name) && Atoi(segment) == Some(index)
  {
    if SlotOf(key) == Some(ConfigOf(index, name)) {
      PartsNumbered(key);
      var segment, tail := Split(key, '.')[2], Join(Split(key, '.')[3..], '.');
      SlotByParts(key, segment, tail);
      TailOfConfig(tail, name);
      assert IsNumbered(key, segment, "config." + name);
    }
    if segment :| '.' !in name && IsNumbered(key, segment, "config." + name) && Atoi(segment) == Some(index) {
      SlotByParts(key, segment, "config." + name);
      TailOfConfig("config." + name, name);
    }
  }

  // ---------------------------------------------------------------- Sources sent and read

  /** The update sends `v` under the name `key`. */
  ghost predicate Sends(state: ProjectState, order: seq<string>, key: string, v: string)
    requires state.Complete() && IsOrder(order, state.extraConfig.Keys)
  {
    key in UpdateMap(state, order) && UpdateMap(state, order)[key] == v
  }

  lemma HeldIsSent(state: ProjectState, order: seq<string>, s: Slot)
    requires state.Complete() && IsOrder(order, state.extraConfig.Keys) && Holds(state.sources, s)
    ensures Sends(state, order, SourceKey(s), ValueAt(state.sources, s))
  {
    HeldIsWritten(state, order, s);
  }

  lemma SourceHolds(sources: seq<Source>, i: nat)
    requires i < |sources|
    ensures Holds(sources, TypeOf(i + 1)) && ValueAt(sources, TypeOf(i + 1)) == sources[i].kind
    ensures forall n :: n in sources[i].config ==>
              Holds(sources, ConfigOf(i + 1, n)) && ValueAt(sources, ConfigOf(i + 1, n)) == sources[i].config[n]
  {
  }

  /** An update sends the type of the i-th source under the number i + 1. */
  lemma TypeIsSent(state: ProjectState, order: seq<string>, i: nat, key: string)
    requires state.Complete() && IsOrder(order, state.extraConfig.Keys) && i < |state.sources|
    requires key == "resources.source." + Itoa(i + 1) + ".type"
    ensures Sends(state, order, key, state.sources[i].kind)
  {
    TypeText(i + 1, key);
    SourceHolds(state.sources, i);
    HeldIsSent(state, order, TypeOf(i + 1));
  }

  /** It sends each of its config entries under that number, whatever text the entry's name is. */
  lemma ConfigIsSent(state: ProjectState, order: seq<string>, i: nat, name: string, key: string)
    requires state.Complete() && IsOrder(order, state.extraConfig.Keys)
    requires i < |state.sources| && name in state.sources[i].config
    requires key == "resources.source." + Itoa(i + 1) + ".config." + name
    ensures Sends(state, order, key, state.sources[i].config[name])
  {
    ConfigText(i + 1, name, key);
    SourceHolds(state.sources, i);
    HeldIsSent(state, order, ConfigOf(i + 1, name));
  }

  lemma TypeText(index: int, key: string)
    requires key == "resources.source." + Itoa(index) + ".type"
    ensures key == SourceKey(TypeOf(index))
  {
  }

  lemma ConfigText(index: int, name: string, key: string)
    requires key == "resources.source." + Itoa(index) + ".config." + name
    ensures key == SourceKey(ConfigOf(index, name))
  {
  }

  lemma KeptInPlace(id: string, project: RemoteProject, sourceOrder: seq<string>, extraOrder: seq<string>, key: string)
    requires IsOrder(sourceOrder, Unnamed(project.config).Keys)
    requires IsOrder(extraOrder, Leftover(Unnamed(project.config)))
    requires NoConflicts(Unnamed(project.config)) && key in project.config && SlotOf(key).Some?
    ensures var rest, state := Unnamed(project.config), ReadState(id, project, sourceOrder, extraOrder);
            && SlotOf(key).value.index in Touched(rest)
            && Position(Touched(rest), SlotOf(key).value.index) < |state.sources|
            && SourceShows(state.sources[Position(Touched(rest), SlotOf(key).value.index)], SlotOf(key).value,
                           project.config[key])
  {
    SourcePropertyIsUnnamed(project.config, key);
    SlotShape(key);
    ConservationExactly(id, project, sourceOrder, extraOrder);
    assert Kept(key, Unnamed(project.config), ReadState(id, project, sourceOrder, extraOrder));
  }

  /** When nothing conflicts, a refresh shows the type of every number, however it is spelled, in the
      source at the place of that number. */
  lemma TypeIsRead(id: string, project: RemoteProject, sourceOrder: seq<string>, extraOrder: seq<string>,
                   segment: string, key: string)
    requires IsOrder(sourceOrder, Unnamed(project.config).Keys)
    requires IsOrder(extraOrder, Leftover(Unnamed(project.config)))
    requires NoConflicts(Unnamed(project.config)) && key in project.config
    requires '.' !in segment && Atoi(segment).Some? && key == "resources.source." + segment + ".type"
    ensures var rest, state := Unnamed(project.config), ReadState(id, project, sourceOrder, extraOrder);
            && Atoi(segment).value in Touched(rest)
            && Position(Touched(rest), Atoi(segment).value) < |state.sources|
            && state.sources[Position(Touched(rest), Atoi(segment).value)].kind == project.config[key]
  {
    assert key == "resources.source." + segment + "." + "type";
    assert IsNumbered(key, segment, "type");
    TypeKeyExactly(key, Atoi(segment).value);
    KeptInPlace(id, project, sourceOrder, extraOrder, key);
  }

  /** And every config entry whose name has no dot. */
  lemma ConfigIsRead(id: string, project: RemoteProject, sourceOrder: seq<string>, extraOrder: seq<string>,
                     segment: string, name: string, key: string)
    requires IsOrder(sourceOrder, Unnamed(project.config).Keys)
    requires IsOrder(extraOrder, Leftover(Unnamed(project.config)))
    requires NoConflicts(Unnamed(project.config)) && key in project.config
    requires '.' !in segment && '.' !in name && Atoi(segment).Some?
    requires key == "resources.source." + segment + ".config." + name
    ensures var rest, state := Unnamed(project.config), ReadState(id, project, sourceOrder, extraOrder);
            && Atoi(segment).value in Touched(rest)
            && Position(Touched(rest), Atoi(segment).value) < |state.sources|
            && var source := state.sources[Position(Touched(rest), Atoi(segment).value)];
               name in source.config && source.config[name] == project.config[key]
  {
    assert key == "resources.source." + segment + "." + ("config." + name);
    assert IsNumbered(key, segment, "config." + name);
    ConfigKeyExactly(key, Atoi(segment).value, name);
    KeptInPlace(id, project, sourceOrder, extraOrder, key);
  }
}
