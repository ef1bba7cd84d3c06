/** The flat property names of a Rundeck project and how they are taken apart again. */
module ProjectKeys {
  import opened Wrappers
  import opened GoStrings

  datatype Attribute =
    | Name
    | Description
    | FileCopierPlugin
    | NodeExecutorPlugin
    | SshAuthenticationType
    | SshKeyStoragePath
    | SshKeyFilePath

  const PROJECT_CONFIG_ATTRIBUTES: map<string, Attribute> := map[
    "project.name" := Name,
    "project.description" := Description,
    "service.FileCopier.default.provider" := FileCopierPlugin,
    "service.NodeExecutor.default.provider" := NodeExecutorPlugin,
    "project.ssh-authentication" := SshAuthenticationType,
    "project.ssh-key-storage-path" := SshKeyStoragePath,
    "project.ssh-keypath" := SshKeyFilePath
  ]

  function ConfigKey(a: Attribute): string {
    match a
    case Name => "project.name"
    case Description => "project.description"
    case FileCopierPlugin => "service.FileCopier.default.provider"
    case NodeExecutorPlugin => "service.NodeExecutor.default.provider"
    case SshAuthenticationType => "project.ssh-authentication"
    case SshKeyStoragePath => "project.ssh-key-storage-path"
    case SshKeyFilePath => "project.ssh-keypath"
  }

  /** The property belongs to a named attribute. */
  ghost predicate IsNamed(key: string) {
    exists a :: ConfigKey(a) == key
  }

  const SOURCE_PREFIX := "resources.source."

  /** A place inside the ordered list of resource model sources. */
  datatype Slot = TypeOf(index: int) | ConfigOf(index: int, name: string)

  /** The property name that the writer gives a slot. */
  function SourceKey(slot: Slot): string {
    var prefix := SOURCE_PREFIX + Itoa(slot.index) + ".";
    match slot
    case TypeOf(_) => prefix + "type"
    case ConfigOf(_, name) => prefix + "config." + name
  }

  /** The index of the source record that the reader creates on seeing a key, if it creates one. */
  function RecordIndex(key: string): Option<int> {
    if !(SOURCE_PREFIX <= key) then None
    else
      var parts := Split(key, '.');
      if |parts| < 4 then None else Atoi(parts[2])
  }

  /** The slot that the reader fills from a key, if it fills one. */
  function SlotOf(key: string): Option<Slot> {
    var index := RecordIndex(key);
    if index.None? then None
    else
      var parts := Split(key, '.');
      if parts[3] == "type" && |parts| == 4 then Some(TypeOf(index.value))
      else if parts[3] == "config" && |parts| == 5 then Some(ConfigOf(index.value, parts[4]))
      else None
  }

  function DotsToSlashes(key: string): Option<string> {
    Some(Replace(key, '.', '/'))
  }

  function SlashesToDots(key: string): Option<string> {
    Some(Replace(key, '/', '.'))
  }

  predicate DotFree(slot: Slot) {
    slot.ConfigOf? ==> '.' !in slot.name
  }

  /** The named properties are in one-to-one correspondence with the named attributes, and their
      names are neither source properties nor changed by replacing slashes. */
  lemma AttributeKeys()
    ensures forall a :: ConfigKey(a) in PROJECT_CONFIG_ATTRIBUTES && PROJECT_CONFIG_ATTRIBUTES[ConfigKey(a)] == a
    ensures forall k :: k in PROJECT_CONFIG_ATTRIBUTES ==>
                          ConfigKey(PROJECT_CONFIG_ATTRIBUTES[k]) == k && !(SOURCE_PREFIX <= k) && '/' !in k
  {
    assert "project.description"[8] != "project.ssh-keypath"[8];
    forall a ensures ConfigKey(a) in PROJECT_CONFIG_ATTRIBUTES && PROJECT_CONFIG_ATTRIBUTES[ConfigKey(a)] == a {
      match a case _ =>
    }
    forall k | k in PROJECT_CONFIG_ATTRIBUTES
      ensures ConfigKey(PROJECT_CONFIG_ATTRIBUTES[k]) == k && !(SOURCE_PREFIX <= k) && '/' !in k
    {
      assert SOURCE_PREFIX[0] != k[0];
    }
  }

  lemma IsNamedByTable(key: string)
    ensures key in PROJECT_CONFIG_ATTRIBUTES <==> IsNamed(key)
  {
    AttributeKeys();
    if key in PROJECT_CONFIG_ATTRIBUTES {
      assert ConfigKey(PROJECT_CONFIG_ATTRIBUTES[key]) == key;
    }
  }

  lemma DotMeansManyParts(s: string)
    ensures '.' in s <==> |Split(s, '.')| > 1
  {
    JoinSplit(s, '.');
    if '.' !in s {
      SplitWithoutSeparator(s, '.');
    }
  }

  lemma PrefixParts(stem: string)
    requires stem == SOURCE_PREFIX[..16]
    ensures |Split(stem, '.')| == 2
    ensures SOURCE_PREFIX == stem + ['.']
  {
    var resources, source := SOURCE_PREFIX[..9], SOURCE_PREFIX[10..16];
    assert forall i :: 0 <= i < 9 ==> resources[i] == SOURCE_PREFIX[i];
    assert forall i :: 0 <= i < 6 ==> source[i] == SOURCE_PREFIX[10 + i];
    SplitWithoutSeparator(resources, '.');
    SplitWithoutSeparator(source, '.');
    SplitAppend(resources, source, '.');
    assert stem == resources + ['.'] + source;
  }

  lemma TailParts(slot: Slot)
    ensures Split(if slot.TypeOf? then "type" else "config." + slot.name, '.') ==
            if slot.TypeOf? then ["type"] else ["config"] + Split(slot.name, '.')
  {
    match slot
    case TypeOf(_) =>
      SplitWithoutSeparator("type", '.');
    case ConfigOf(_, name) =>
      SplitWithoutSeparator("config", '.');
      SplitAppend("config", name, '.');
      assert "config" + ['.'] + name == "config." + name;
  }

  /** A source property splits into two fixed parts, the index text, and the parts of the rest. */
  lemma NumberedKeyParts(segment: string, tail: string)
    requires '.' !in segment
    ensures var parts := Split(SOURCE_PREFIX + segment + ['.'] + tail, '.');
            |parts| >= 4 && parts[2] == segment && parts[3..] == Split(tail, '.')
  {
    var stem := SOURCE_PREFIX[..16];
    PrefixParts(stem);
    SplitWithoutSeparator(segment, '.');
    SplitAppend(stem, segment, '.');
    SplitAppend(stem + ['.'] + segment, tail, '.');
    assert SOURCE_PREFIX + segment + ['.'] + tail == stem + ['.'] + segment + ['.'] + tail;
  }

  lemma SourceKeyText(slot: Slot)
    ensures SourceKey(slot) ==
            SOURCE_PREFIX + Itoa(slot.index) + ['.'] + if slot.TypeOf? then "type" else "config." + slot.name
  {
  }

  lemma SourceKeyParts(slot: Slot)
    ensures SOURCE_PREFIX <= SourceKey(slot)
    ensures var parts := Split(SourceKey(slot), '.');
            |parts| >= 4 && parts[2] == Itoa(slot.index) &&
            parts[3..] == if slot.TypeOf? then ["type"] else ["config"] + Split(slot.name, '.')
  {
    ItoaShape(slot.index);
    SourceKeyText(slot);
    TailParts(slot);
    NumberedKeyParts(Itoa(slot.index), if slot.TypeOf? then "type" else "config." + slot.name);
  }

  predicate InRange(index: int) {
    MIN_INT <= index <= MAX_INT
  }

  /** Taking a written key apart: the slot comes back exactly when its config name has no dot. */
  lemma SourceKeyReadBack(slot: Slot)
    requires InRange(slot.index)
    ensures RecordIndex(SourceKey(slot)) == Some(slot.index)
    ensures SlotOf(SourceKey(slot)) == if DotFree(slot) then Some(slot) else None
  {
    SourceKeyParts(slot);
    AtoiItoa(slot.index);
    if slot.ConfigOf? {
      DotMeansManyParts(slot.name);
      if '.' !in slot.name {
        SplitWithoutSeparator(slot.name, '.');
      }
    }
  }

  /** Different slots get different property names, whatever text a config name holds. */
  lemma SourceKeyInjective(a: Slot, b: Slot)
    requires SourceKey(a) == SourceKey(b)
    ensures a == b
  {
    SourceKeyParts(a);
    SourceKeyParts(b);
    var parts := Split(SourceKey(a), '.');
    assert parts[2] == Itoa(a.index) == Itoa(b.index);
    ItoaInjective(a.index, b.index);
    assert parts[3] == if a.TypeOf? then "type" else "config";
    assert parts[3] == if b.TypeOf? then "type" else "config";
    assert |"type"| != |"config"|;
    if a.ConfigOf? {
      assert a.name == SourceKey(a)[|SOURCE_PREFIX + Itoa(a.index) + "." + "config."|..];
      assert b.name == SourceKey(b)[|SOURCE_PREFIX + Itoa(b.index) + "." + "config."|..];
    }
  }

  /** What the reader takes from a key always has an index in range and a dot-free config name. */
  lemma SlotShape(key: string)
    requires SlotOf(key).Some?
    ensures RecordIndex(key) == Some(SlotOf(key).value.index)
    ensures InRange(SlotOf(key).value.index) && DotFree(SlotOf(key).value)
  {
  }

  /** Another spelling of an index is accepted for the slot of that index. */
  lemma SpelledTypeKey(segment: string)
    requires '.' !in segment && Atoi(segment).Some?
    ensures SlotOf(SOURCE_PREFIX + segment + ".type") == Some(TypeOf(Atoi(segment).value))
  {
    var key, tail := SOURCE_PREFIX + segment + ".type", "type";
    TailParts(TypeOf(0));
    NumberedKeyParts(segment, tail);
    assert key == SOURCE_PREFIX + segment + ['.'] + tail;
  }
}
