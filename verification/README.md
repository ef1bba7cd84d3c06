# The Rundeck provider's codecs, in Dafny

The Terraform provider for Rundeck is API plumbing around a few codecs that turn Terraform's
structured state into the shapes Rundeck stores, and back. This project models those codecs and
proves what they keep and what they lose. Where a promised property does not hold of every input, it is
stated as an "exactly when": the property holds if and only if a condition on the input does.

## What is modelled

* **Projects** (`ProjectKeys`, `ProjectNames`, `ProjectCodec`, `ProjectReading`, `ProjectRoundTrip`,
  `ProjectRawTrip`, `ProjectSettling`, `ProjectStability`). An update flattens named attributes, an ordered list of
  sources and free extra properties into one map with dotted keys; a refresh parses such a map. The
  string operations (`GoStrings`: `Split`, `Join`, `Replace`, `Itoa`, `Atoi` with sign, leading zeros
  and 64-bit range) are defined concretely. The three statements about whole trips are: a state
  comes back from write-then-read exactly when it is `Storable`; a raw property map comes back from
  read-then-write exactly when it is `Reproducible`; and refresh, apply, refresh ends in the state of
  the first refresh exactly when the project is `Settled`.
* **Ranges over maps** (`MapRange`, `Ordering`). Go visits the keys of a map in an unspecified order,
  and the current key may be deleted on the way. Every such loop picks an arbitrary unvisited key;
  the methods return, as a ghost result, the order that was taken, and the lemmas are about every
  order. `Consistent` keys are those whose order of visits does not matter. Slices are sorted by an
  insertion sort that is proved to return an ascending permutation of its input, which is all that
  the results depend on.
* **XML maps** (`XmlMaps`, `LogFilters`, `CommaLists`). Tokens go into an encoder and come from a decoder
  with a read cursor. Both decoder loops are specified on every token stream, well-formed or not.
* **Jobs** (`JobModel`, `JobCommands`, `JobNotifications`, `Cron`, `JobConversion`, `JobFields`,
  `JobWire`).
  Both directions of the job conversion with its cron, command-tree and notification helpers, the
  fixed point of applying and refreshing, and, in `JobWire`, the same with the list and map codecs
  of the wire format in between.
* **Public keys** (`PublicKeys`). Any number of resource instances over one key store, run through
  arbitrary sequences of create, refresh, update and delete steps. A request is answered, refused, or
  carried out although its answer is an error; the last case is what separates the runs in which the
  ownership flag is right from those in which it is not.

`d.Get` and `d.Set` are reads and writes of a typed record inside `ResourceStore.ResourceData`; a
field that was never set holds its zero value. A server is an object that returns what was last
written to it.

## Findings

* The schema describes `extra_config` keys as written with slashes for dots (resource_project.go:101-105),
  while the documentation's example uses a dotted key (website/docs/r/project.html.md:32-34).
  The code accepts both; a dotted key comes back with slashes (`ProjectStability.DottedKeyComesBackSlashed`),
  so that a state is stable exactly when, besides being storable, it uses the slash form
  (`ProjectStability.StateUnchangedExactly`).
* `resources.source.1.type`, `resources.source.01.type` and `resources.source.+1.type` all denote the
  same record; if their values differ, which one is shown depends on Go's map order
  (`ProjectReading.SpellingsConflict`).
* Options with `is_date` or `date_format` never come back from a refresh, and a schedule with a blank
  day field is accepted although what it is printed as is always rejected, as with two adjacent spaces
  before the month (`JobConversion.FixedPointExactly`, `Cron.BlankDayIsNotPrinted`, `Cron.BlankDayIsAccepted`).
* A refresh writes neither `timeout` nor `success_on_empty_node_filter` (resource_job.go:828-1013), so that a
  value changed on the server is not seen and the next apply sends the old one. `JobFields.ReapplyExactly`
  lists everything that keeps a job from being sent back as it was read.
* A log filter with an empty configuration is accepted; its element is then not written, the fetched
  job has no configuration there, and the refresh dereferences it (resource_job.go:959-962;
  `JobWire.EmptyLogFilterConfigBreaks`). `JobWire.RefreshGoesThroughExactly` says for which states that
  does not happen.
* A delete of a public key that is carried out but answered with an error leaves the flag set without a
  key behind it. If another instance creates the key anew, a repeated delete removes it
  (`PublicKeys.CutOffRemovesAnothersKey`). Keys that were there from the start are never
  removed, whatever happens (`PublicKeys.AdoptedNeverRemoved`).
* The comment at resource_public_key.go:108-109 speaks of an opt-in to deleting an existing key; the
  `delete` attribute is computed only (lines 43-47), and nothing but a successful create sets it.

## Model

| member | source | states |
|---|---|---|
| GoStrings.SplitJoinExactly | rundeck/job.go:484-488 | splitting what was joined gives the list back exactly for non-empty lists of parts without the separator |
| GoStrings.AtoiItoa | rundeck/resource_project.go:222 | parsing what `%v` prints gives the number back exactly when it fits an `int` |
| GoStrings.AtoiMergesSpellings | rundeck/resource_project.go:222-225 | "1", "01" and "+1" denote one index |
| GoStrings.AtoiRangeExactly | rundeck/resource_project.go:222 | a printed number is read back exactly when it fits 64 bits |
| GoStrings.AtoiRejects | rundeck/resource_project.go:222-225 | anything but an optional sign and at least one digit is no number |
| GoStrings.AtoiOneMore | rundeck/resource_project.go:222 | one more digit multiplies by ten and adds, away from zero, up to the 64-bit range |
| GoStrings.PrintedSpellingExactly | rundeck/resource_project.go:166 | of all spellings of a number the printed one is that without plus sign and leading zeros |
| MapRange.OrderFreeExactly | rundeck/resource_project.go:214-256 | a loop that assigns one entry per visited key has one result for all orders exactly when no two keys assign different values to one target |
| MapRange.LandsExactly | rundeck/resource_project.go:270-275 | such a loop loses no value exactly when its keys are consistent |
| Ordering.Sort | rundeck/resource_project.go:263 | an ascending permutation of the input |
| Ordering.ListingIsUnique | rundeck/util.go:35-40 | the sorted list of a set's elements does not depend on the order they were collected in |
| Ordering.StringLeExactly | rundeck/util.go:40 | keys are ordered by the first character in which they differ, a beginning before its continuations |
| ProjectKeys.AttributeKeys | rundeck/resource_project.go:15-23 | named properties and attributes correspond one to one, and no named property is a source property or has a slash |
| ProjectKeys.SourceKeyInjective | rundeck/resource_project.go:166-171 | a type or config entry of a source never shares its property name with another, whatever text the config key is |
| ProjectKeys.SourceKeyReadBack | rundeck/resource_project.go:215-254 | the reader takes a written property name apart into the index and entry it was made from, exactly when the config key has no dot |
| ProjectKeys.SlotShape | rundeck/resource_project.go:215-250 | whatever the reader consumes has an index in `int` range and a dot-free config key |
| ProjectNames.NamedAttributeIsSent | rundeck/resource_project.go:15-23 | an update sends each named attribute that is set under its property name, spelled out |
| ProjectNames.NamedAttributeIsRead | rundeck/resource_project.go:202-210 | a refresh takes each named attribute from the property of that name, and the name from the project |
| ProjectNames.RecordKeyExactly | rundeck/resource_project.go:215-233 | a record is created for exactly the keys `resources.source.<number>.<anything>`, whatever the number's spelling |
| ProjectNames.TypeKeyExactly | rundeck/resource_project.go:236-241 | a source's type is taken from exactly the keys `resources.source.<number>.type` |
| ProjectNames.ConfigKeyExactly | rundeck/resource_project.go:242-247 | a config entry is taken from exactly the keys `resources.source.<number>.config.<name>` whose name has no dot |
| ProjectNames.TypeIsSent | rundeck/resource_project.go:166-169 | an update sends the type of the i-th source under `resources.source.<i+1>.type` |
| ProjectNames.ConfigIsSent | rundeck/resource_project.go:170-172 | it sends each config entry under `resources.source.<i+1>.config.<name>`, whatever text the name is |
| ProjectNames.TypeIsRead | rundeck/resource_project.go:214-268 | without conflicts, the type under any spelling of a number is shown in the source at the place of that number |
| ProjectNames.ConfigIsRead | rundeck/resource_project.go:214-268 | and so is every config entry |
| ProjectCodec.ReadAttributes | rundeck/resource_project.go:202-210 | for every order, each named attribute gets its property's value or is unset, and exactly the named properties are deleted |
| ProjectCodec.ReadSourceKey | rundeck/resource_project.go:215-255 | one property: consumed exactly if it names a slot; a record is created for its index even if it is not consumed |
| ProjectCodec.ReadSources | rundeck/resource_project.go:212-256 | visits each key once while deleting; records exist exactly for the indices of keys with four or more parts; exactly the unconsumed keys are left, with their values |
| ProjectCodec.SortedIndices | rundeck/resource_project.go:259-263 | the indices in ascending numeric order, however they were collected |
| ProjectCodec.ListSources | rundeck/resource_project.go:258-268 | the sources in ascending order of index, each with the type and config that were filled in |
| ProjectCodec.ParseProject | rundeck/resource_project.go:200-278 | the whole state after a refresh, for some order of the source loop and some order of the extra loop |
| ProjectCodec.ReadProject | rundeck/resource_project.go:185-281 | a missing project fails and changes nothing; otherwise the state is a parse of the server's copy |
| ProjectCodec.WriteAttributes | rundeck/resource_project.go:155-160 | the non-empty named attributes override what was there, for every order |
| ProjectCodec.WriteSources | rundeck/resource_project.go:162-173 | all type and config entries, numbered from 1, override what was there |
| ProjectCodec.FlattenProject | rundeck/resource_project.go:146-173 | the update map is extra config, overridden by named attributes, overridden by sources, for some order of the extra loop |
| ProjectCodec.UpdateProject | rundeck/resource_project.go:137-183 | only the addressed project changes, it holds the flattened state afterwards, and the new state is a parse of that |
| ProjectReading.ReadExists | rundeck/resource_project.go:200-278 | every project can be read, in some order |
| ProjectReading.ReadOrderFreeExactly | rundeck/resource_project.go:200-278 | a refresh ends in one state for every order of both loops exactly when no two properties compete for one place with different values |
| ProjectReading.SpellingsConflict | rundeck/resource_project.go:222-241 | with two spellings of one index that have different types there are two orders of the loops that end in different states |
| ProjectReading.ConservationExactly | rundeck/resource_project.go:202-278 | every property that is not named is found, with its value, in its one place among source types, source config entries and extra entries, exactly when there are no conflicts; named properties other than the name always keep their values |
| ProjectReading.OnePlaceEach | rundeck/resource_project.go:202-275 | with slash-free keys and canonically spelled indices no place is shared: no named or consumed property shows up in the extra entries as well, no two properties have one place, and each is found in its own |
| ProjectReading.NothingInvented | rundeck/resource_project.go:202-278 | every entry of the state, named attributes included, is the value of a property that belongs there, save that name and URL are the project's own; there is one record per index parsed from a key with four or more parts |
| ProjectRoundTrip.WriterLayers | rundeck/resource_project.go:146-173 | which of the three layers decides each property |
| ProjectRoundTrip.TripExists | rundeck/resource_project.go:146-278 | every state can be written and read back, in some order, so that the round-trip statements are about runs that exist |
| ProjectRoundTrip.StateRoundTripExactly | rundeck/resource_project.go:146-278 | writing a state and reading it back preserves ordered sources, named attributes and extra config up to dots and slashes, for every order of every loop, exactly when config keys are dot-free and extra keys stay extra and distinct |
| ProjectRoundTrip.StorableExactly | rundeck/resource_project.go:146-278 | some order of the loops preserves a state exactly when the state is storable |
| ProjectRoundTrip.TripsAgree | rundeck/resource_project.go:146-278 | a state that survives one write and read survives every one, whatever the orders of the loops and the project's name |
| ProjectRawTrip.RawRoundTripExactly | rundeck/resource_project.go:146-278 | writing what was read reproduces the raw property map, malformed and over-deep source keys included, exactly when source keys are canonical and completely numbered, leftover keys slash-free, named values non-empty and the name property equal to the project's name |
| ProjectRawTrip.ReproducibleExactly | rundeck/resource_project.go:146-278 | some order of the loops reproduces a property map exactly when the project is reproducible |
| ProjectRawTrip.RewritesAgree | rundeck/resource_project.go:146-278 | a property map that survives one read and write survives every one |
| ProjectSettling.RefreshApplyRefreshExactly | rundeck/resource_project.go:146-278 | after refresh and apply, another refresh ends in the same state exactly when no leftover key turns into something else by replacing its slashes |
| ProjectSettling.Renumbered | rundeck/resource_project.go:162-173 | after a refresh, an update writes the source with the p-th smallest index, in numeric order, under p, with its type and config entries |
| ProjectSettling.WriteOrderFreeExactly | rundeck/resource_project.go:148-160 | an update sends one map for every order exactly when no two extra keys that are not overridden merge with different values |
| ProjectStability.StateUnchangedExactly | rundeck/resource_project.go:146-278 | a state comes back just as it was, save for the project's own name, exactly when it is storable and no extra key has a dot |
| ProjectStability.DottedKeyComesBackSlashed | rundeck/resource_project.go:270-275 | a project with the extra key "project.label" is storable, and on every trip comes back with "project/label" instead |
| ProjectStability.ReadStateUpdatesAlike | rundeck/resource_project.go:148-173 | from a state that was read, an update sends one map for every order of its loop |
| ProjectStability.RepeatsExactly | rundeck/resource_project.go:146-278 | what an update leaves on the server is reproducible exactly when, in the state it was made from, extra keys that turn into source properties are canonical and continue the numbering, each further index with its type, and none turns into the property of an unset attribute other than with a value and not for the name |
| ProjectStability.SecondUpdateExactly | rundeck/resource_project.go:137-278 | refreshing and updating again sends the same map exactly when the state of the first refresh repeats, which holds for every settled project |
| XmlMaps.MarshalMapToXML | rundeck/util.go:29-61 | appends tokens that depend on the map alone, and none for an empty map |
| XmlMaps.MapTokensShape | rundeck/util.go:33-59 | the tokens are balanced, two per entry and two around them, the start element with its attributes, and have strictly ascending keys |
| XmlMaps.ReadAttrs | rundeck/util.go:81-89 | of several attributes with the key or value name the last one counts |
| XmlMaps.UnmarshalMapFromXML | rundeck/util.go:63-101 | succeeds exactly when the end element comes before an unexpected start, an entry without key and the end of the stream; it stops right after it; the result is the fold of the entries; on failure the target is unchanged |
| XmlMaps.EntriesExactly | rundeck/util.go:77-93 | that fold holds exactly the keys seen, each with the value of its last entry |
| XmlMaps.StopsAtExactly | rundeck/util.go:65-99 | the decoder stops at the first end element with the start's name, unless a start element before it has another name than an entry or no key |
| XmlMaps.OnlyTagsMatter | rundeck/util.go:74-76 | text, comments and the like, wherever they stand, change neither whether a map decodes nor to what |
| XmlMaps.LastAttrIsLast | rundeck/util.go:83-89 | of several attributes with one name the last one counts |
| XmlMaps.PluginEntry | rundeck/job.go:543-551 | entries of plugin configurations are elements "entry" with attributes "key" and "value", read in either order |
| XmlMaps.MapRoundTripExactly | rundeck/util.go:29-101 | decoding what was written, followed by any suffix, returns the map and leaves the suffix, exactly when key and value names differ, entry and element names differ, and no key is empty |
| XmlMaps.RunPluginConfigCodec | rundeck/job.go:543-551 | the same for plugin configurations, by running both procedures |
| LogFilters.MarshalLogFilterConfig | rundeck/job.go:554-570 | appends one element per entry, in some order, inside the surrounding element; nothing for an empty map |
| LogFilters.UnmarshalLogFilterConfig | rundeck/job.go:573-586 | on any token stream: succeeds exactly when the element is closed after balanced content, and stops right after that; the target holds the direct texts of its children, later ones overwriting, and after a failure those of exactly the children that are complete |
| LogFilters.LogFilterRoundTripExactly | rundeck/job.go:554-586 | for every emission order, every suffix and every name of the surrounding element, the map comes back and the suffix is left, exactly when no key is empty |
| LogFilters.ScanNests | rundeck/job.go:573-586 | the decoder's view of which elements are open is the balance of the tokens, for every stream |
| LogFilters.ChildIsEntry | rundeck/job.go:576-583 | a child adds an entry under its name with all the text directly in it; elements and remarks inside it do not matter |
| LogFilters.WrittenChildren | rundeck/job.go:563-568 | each key is written as an element of its name around its value, one after the other |
| LogFilters.RunLogFilterCodec | rundeck/job.go:554-586 | the same round trip, by running both procedures |
| CommaLists.AttrTextRoundTrip | rundeck/job.go:477-514 | encoding what was decoded gives the attribute's text back, for every text |
| CommaLists.ListRoundTripExactly | rundeck/job.go:477-514 | decoding what was encoded gives the list back exactly when no item has a comma |
| CommaLists.EncodingIsInjective | rundeck/job.go:477-482 | different comma-free lists have different encodings, the list of one empty string and the empty list included |
| CommaLists.EncodedText | rundeck/job.go:477-482 | a list is written as its items with commas between them |
| CommaLists.DecodedText | rundeck/job.go:484-488 | a text is read as what stands between its commas |
| Cron.ParseCron | rundeck/resource_job.go:1015-1050 | accepted exactly when there are seven fields and the day fields are both "*" or exactly one is "?" |
| Cron.ParsedTextExactly | rundeck/resource_job.go:1019-1047 | seven space-free texts with spaces between them are accepted exactly under the rule for the two day fields, and mean the schedule with those fields in that order |
| Cron.PrintedText | rundeck/resource_job.go:1052-1075 | the text of any schedule, field by field, with blank day fields as "*" beside one that restricts nothing and "?" beside any other |
| Cron.BlankDaysPrinted | rundeck/resource_job.go:1052-1066 | if what is printed is accepted, it means the schedule with its blank day fields so filled |
| Cron.JobSchedule.ToCronSpec | rundeck/resource_job.go:1052-1076 | blank day fields are filled in place and the filled schedule is printed |
| Cron.FillIsIdempotent | rundeck/resource_job.go:1053-1066 | filling twice is filling once, and changes nothing exactly when no day field is blank |
| Cron.PrintParsedExactly | rundeck/resource_job.go:1015-1076 | an accepted spec is printed back character for character exactly when no day field is blank |
| Cron.BlankDayIsNotPrinted | rundeck/resource_job.go:1015-1076 | a spec that is accepted with a blank day field is printed as one that is not accepted |
| Cron.BlankDayIsAccepted | rundeck/resource_job.go:1041-1047 | "0 0 12  * ? *", whose day of month is blank, is accepted |
| Cron.ParsePrintedExactly | rundeck/resource_job.go:1015-1076 | for any schedule, the printed spec is accepted and parses to the filled schedule exactly when no field has a space and the day fields are printable |
| JobCommands.CommandFromResourceData | rundeck/resource_job.go:1078-1130 | succeeds exactly when no list of a single part has two elements anywhere in the tree, with the command that the tree denotes |
| JobCommands.JobRefFromResourceData | rundeck/resource_job.go:1132-1161 | fails exactly on several references or several node filters |
| JobCommands.SinglePluginFromResourceData | rundeck/resource_job.go:1163-1182 | fails exactly on several plugins; the configuration is copied for every order |
| JobCommands.CommandToResourceData | rundeck/resource_job.go:1184-1250 | the tree of blocks for a command of any depth |
| JobCommands.BlockSurvives | rundeck/resource_job.go:1078-1250 | blocks to command to blocks is the identity at any depth |
| JobCommands.CommandSurvivesExactly | rundeck/resource_job.go:1078-1250 | the blocks of any command are accepted, and give the command back exactly when nothing in it has a file extension or a job-reference dispatch |
| JobFields.SingularExactly | rundeck/resource_job.go:1092-1127 | a command tree is accepted exactly when nothing that it reaches through error handlers has a list of several parts |
| JobFields.ShownCommand | rundeck/resource_job.go:1184-1250 | showing any command loses exactly its file extensions and job-reference dispatches |
| JobNotifications.NotificationsFromResourceData | rundeck/resource_job.go:741-824 | succeeds exactly on at most three blocks of known, pairwise different types with at most one plugin each |
| JobNotifications.NotificationsToResourceData | rundeck/resource_job.go:992-1010 | the blocks for the filled slots, success before failure before start |
| JobNotifications.ShownIsPermutation | rundeck/resource_job.go:741-824 | the blocks shown are a permutation of the canonical forms of the given ones, in the fixed order |
| JobNotifications.BlocksSurviveExactly | rundeck/resource_job.go:1253-1280 | the given blocks come back, in some order, exactly when each has at most one email and method and format only beside URLs |
| JobNotifications.BlocksUnchangedExactly | rundeck/resource_job.go:992-1010 | they come back unchanged exactly when they also stand in the fixed order |
| JobNotifications.SecondPassChangesNothing | rundeck/resource_job.go:741-824 | the shown blocks denote the same notifications and are shown as themselves |
| JobFields.NotificationsAcceptedExactly | rundeck/resource_job.go:741-824 | blocks are accepted exactly when their types are the three known ones, no two alike, with at most one plugin each |
| JobFields.NotificationIsFiled | rundeck/resource_job.go:798-819 | each accepted block is filed under the event that its type names |
| JobFields.NotificationCarriesFields | rundeck/resource_job.go:751-796 | the fields of a notification; of several emails the first counts, method and format only beside URLs |
| JobFields.ShownNotification | rundeck/resource_job.go:1253-1280 | showing any notification loses method and format without URLs and an empty list of URLs |
| JobFields.ShownKinds | rundeck/resource_job.go:992-1010 | the types of the blocks shown, in the fixed order |
| JobConversion.JobFromResourceData | rundeck/resource_job.go:616-826 | succeeds exactly on acceptable states, with the job that the state denotes |
| JobConversion.OptionsFromResourceData | rundeck/resource_job.go:685-723 | fails exactly on an option with a storage path or script exposure but no obscured input, a date without format, or a nil choice |
| JobFields.JobCarriesFields | rundeck/resource_job.go:617-641 | each plain field of the job sent carries the attribute of its name, timeout and success on empty node filter included |
| JobFields.JobCarriesSequence | rundeck/resource_job.go:643-677 | its commands and log filters, in order |
| JobFields.JobCarriesOptions | rundeck/resource_job.go:679-725 | its options with every field, the date fields included |
| JobFields.CommandCarriesFields | rundeck/resource_job.go:1078-1182 | the fields of a command and of its parts |
| JobConversion.JobToResourceData | rundeck/resource_job.go:828-1013 | the whole state after a refresh, what it leaves alone, and the filled schedule of the job it was given |
| JobFields.RefreshShowsFields | rundeck/resource_job.go:830-917 | each attribute shows the field of its name, a fixed value without dispatch or node filter, and the old value where a refresh writes nothing |
| JobFields.RefreshShowsLists | rundeck/resource_job.go:919-1010 | commands, log filters, options and schedule of any job, and what stays when the job leaves them out |
| JobFields.ReapplyExactly | rundeck/resource_job.go:616-1013 | for every job and state: after a refresh from the job an apply sends that very job exactly when blocks can express it and the state already has what a refresh does not write |
| JobConversion.RefreshedParts | rundeck/resource_job.go:828-1013 | a refresh after an apply rewrites options, schedule and notifications and nothing else |
| JobConversion.FixedPointExactly | rundeck/resource_job.go:616-1013 | after apply and refresh the state denotes the same job again, exactly when no option has a date field and the schedule has both day fields |
| JobConversion.NoDifferenceExactly | rundeck/resource_job.go:616-1013 | the refreshed state is the applied one exactly when, besides, notification blocks are clean and in the fixed order |
| JobConversion.RefreshSettlesExactly | rundeck/resource_job.go:616-1013 | what is read after an apply can be applied again exactly when the schedule had both day fields, and a second round changes nothing any more |
| JobConversion.RefreshIsIdempotent | rundeck/resource_job.go:828-1013 | a second refresh from one job changes nothing, whatever the job |
| JobWire.FetchConfigExactly | rundeck/job.go:543-551 | a plugin configuration comes back from the wire if no key is empty, and otherwise cannot be decoded |
| JobWire.FetchCommandExactly | rundeck/job.go:243-314 | a command of any depth comes back from the wire if no plugin in it has an empty configuration key, and otherwise cannot be decoded |
| JobWire.FetchJobExactly | rundeck/job.go:477-586 | a job survives the wire, for every order of its log filters' entries, exactly when no list item has a comma, no configuration key is empty and no log filter configuration is empty |
| JobWire.FetchSucceedsExactly | rundeck/util.go:81-92 | a job that was sent can be decoded again exactly when no plugin in it has an empty configuration key |
| JobWire.RefreshGoesThroughExactly | rundeck/resource_job.go:956-964 | for every acceptable state, its job can be fetched and refreshed from exactly when no plugin has an empty configuration key and no log filter has an empty configuration |
| JobWire.ApplyFetchRefreshExactly | rundeck/resource_job.go:616-1013 | for every acceptable state and every order of its log filters' entries, apply, fetch and refresh leave the state alone exactly when its job survives the wire, no option has a date field, the schedule has both day fields, and the notification blocks are clean and in the fixed order |
| JobWire.OneRoundSettlesExactly | rundeck/resource_job.go:616-1013 | whenever a job can be fetched and refreshed from, the state then read is acceptable exactly when the schedule had both day fields, and from then on every apply, fetch and refresh leaves it alone |
| JobWire.EmptyLogFilterConfigBreaks | rundeck/resource_job.go:956-964 | a job of one command and a log filter whose configuration is empty is accepted and fetched, yet cannot be refreshed from |
| PublicKeys.CreatePublicKey | rundeck/resource_public_key.go:52-75 | creates only if there is key material, fails on a conflict, sets the flag only after its own create, and the id before the read |
| PublicKeys.UpdatePublicKey | rundeck/resource_public_key.go:77-97 | overwrites only changed material and never touches flag or id |
| PublicKeys.DeletePublicKey | rundeck/resource_public_key.go:99-122 | deletes from the store only if flagged, and keeps the id if that fails |
| PublicKeys.ReadPublicKey | rundeck/resource_public_key.go:124-153 | shows the stored material, or fails and changes nothing |
| PublicKeys.StepOwnedExactly | rundeck/resource_public_key.go:52-122 | a step removes only the acting instance's own key, and keeps every flag right exactly when it is not a flagged delete whose reply is an error although it was carried out |
| PublicKeys.OwnedThroughoutExactly | rundeck/resource_public_key.go:52-122 | all flags are right at every point of a run exactly when no step is such a delete; then every removal is of a key that the remover itself put there |
| PublicKeys.OneFlagPerPath | rundeck/resource_public_key.go:59-70 | at every point of a run before any such delete, at most one instance per path holds the flag |
| PublicKeys.CreateKeepsExactly | rundeck/resource_public_key.go:52-75 | what a create stores, which creates leave an instance behind, which of those are flagged, and what they show |
| PublicKeys.OthersKeepKeys | rundeck/resource_public_key.go:77-97 | refreshes and updates neither create nor remove keys, and set no flag |
| PublicKeys.UpdateExactly | rundeck/resource_public_key.go:77-97 | an update stores new material exactly when it differs, the key is there and the request is carried out, and what the instance then shows |
| PublicKeys.RefreshExactly | rundeck/resource_public_key.go:124-173 | a refresh drops the instance whose key is gone and otherwise shows what is stored |
| PublicKeys.DeleteExactly | rundeck/resource_public_key.go:99-122 | which key a delete removes, and when the instance goes |
| PublicKeys.ReportsExactly | rundeck/resource_public_key.go:52-153 | when each operation reports success |
| PublicKeys.DeleteUndoesCreateExactly | rundeck/resource_public_key.go:52-122 | create then delete restores store and instances, exactly when the create did not leave a key behind that no instance knows of |
| PublicKeys.AdoptedNeverRemoved | rundeck/resource_public_key.go:103-117 | keys from before the run are never removed, in any run |
| PublicKeys.CutOffRemovesAnothersKey | rundeck/resource_public_key.go:108-117 | after such a delete, another instance's new key can be removed by repeating it |

## Left out

- `CreateProject` and `ProjectExists`: one request around `UpdateProject`, one status test.
- `resource_acl_policy.go` and `resource_private_key.go`: thin request wrappers around foreign hashing.
- HTTP, contexts, provider configuration and `importJob`/`GetJob`: foreign; a server is a map that returns what was last written.
- Error texts: a failure carries no payload. `d.Set` never fails.
- A request without any response: `CreatePublicKey`, `UpdatePublicKey` and `ReadPublicKey` look at the status of a missing response and panic; only error answers are modelled. The client turns every status other than the expected ones and 409 into an error.
- Key types, key URLs and clients other than this resource that change the key store during a run.
- The XML text layer: escaping, name spaces (names are local names), struct tags, `omitempty`. `JobWire` takes the fields that no codec of the repository touches to be faithful. An entry of a log filter without a name is written under the name of its Go type, which is what the standard encoder falls back to.
- The standard encoder and decoder on one log filter entry are modelled by `EncodeEntry` and `DecodeEntry`, which also reject end elements that close nothing. Other errors of the XML decoder count as the end of the stream, and errors of the encoder do not occur (`marshalMapToXML` ignores them).
- Terraform's schema: defaults, diffs and validation. Assumed are only get-after-set, zero values for what is absent, and that every named attribute of a project has a value. Error handlers of error handlers, which the schema excludes but the converters would handle, are included.
- The maps `configMaps` and `resourceSourceMap` share their inner maps in Go; here they are two maps kept in step, so aliasing is not captured. Likewise the in-place filling of `job.Schedule` is a class inside `Cron`, and `JobToResourceData` returns the filled job.
- Slices are sequences, and sorting is an insertion sort instead of the library's algorithm.
- `int` is taken to have 64 bits, and strings are sequences of characters rather than of bytes; every separator involved is ASCII. `StringLe` compares characters.
- Empty items of `recipients` and `webhook_urls`, which reach the job converter as nil and make it panic (resource_job.go:760-774); only those of `value_choices`, which it checks for, are modelled.
- Values of `projectConfig` that are not strings, on which the reader would panic.
- The contents of cron fields beyond the rule for the two day fields: the code does not look at them.
- `JobCommandJobRefArguments` and `JobSummary`: single-field wrappers.
- StateRoundTripExactly: a state with more than 2^63-1 sources is excluded by `Complete`, as no Go slice is that long.
