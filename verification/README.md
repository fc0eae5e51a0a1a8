# Verified models of Mini Infra's protocols and codecs

Mini Infra is a self-hosted platform for deploying container stacks. This project models the parts of it whose
correctness does not show from reading one function, and proves what they promise for every input, every run or every
interleaving. Each Dafny module stands for one component.

| module | component |
|---|---|
| `DependencyOrder`, `DependencyUnfolding` | the sort of Compose services by `depends_on`, a recursive search with cycle detection, and what it emits |
| `ComposeText`, `ComposeDuration`, `ComposePorts`, `ComposeMounts`, `ComposeService`, `ComposeImport`, `ComposeLaws`, `ComposeLosses`, `ComposeReports`, `ComposeValueLosses`, `ComposeServiceLosses` | the Compose importer, from texts and single keys to the whole document, its laws and what it loses |
| `ComposeWriter`, `ComposeRoundTrip` | a writer of Compose documents, against which the importer is checked |
| `TemplateDraft`, `TemplateTransfer`, `TemplateLosses` | the template export and import codec, and what it loses |
| `SingleFlight`, `SingleFlightWaiters`, `SingleFlightEndpoint` | the single-flight refresh of OAuth tokens, as an interleaving of callers |
| `AcmePipeline` | signed ACME requests: one nonce slot, a promise chain and bounded retries |
| `Der` | the DER encoder, against a strict decoder |
| `NatsCreds` | the parser of armored NATS credentials, against a printer |
| `KvCache` | the double-checked cache of bucket handles |
| `MessageQueue`, `AgentTurns`, `AgentTurnHistory` | the agent sidecar's message queue and turn store |
| `Hostnames` | Tailscale hostnames and JetStream stream names |
| `Sequences`, `Json`, `ImportIssues`, `ImportOutcomes` | shared vocabulary |

Code that changes state is modelled by classes and methods proved against specification functions, and the laws are
proved about those functions. The concurrent components are state machines in which every lock, unlock, field access,
channel operation or `await` is a step of its own.

## Where the code and its documentation differ

The models follow the code; each difference is proved, with the exact condition where there is one.

- The Compose importer promises that nothing is dropped silently. Some of what is lost without an issue, by level, each
  with the condition under which it is:
  - of the document: all but four keys (`ComposeLosses.TopLevelKeyIsLostIff`); of a network or volume: all but `external`
    and `driver` (`ComposeLosses.NamedKeyIsLostIff`);
  - of a service: unknown keys such as `hostname`, and known ones of an unexpected shape such as `ports` written as one text
    (`ComposeServiceLosses.ServiceKeyIsLostIff`);
  - of a port: in the short syntax a protocol other than `udp` and a host part that cannot be read, so that `${P}:80`
    becomes an unbound port (`ComposePorts.ShortProtocolIsLostIff`, `ShortHostIsLostIff`); in the long one all but three
    keys, the host address included, which the short syntax reports
    (`ComposeValueLosses.LongPortKeyIsLostIff`, `ComposePorts.HostAddressIsReportedInShortFormOnly`);
  - of a mount: in the short syntax any mode but `ro`, so that `v:/data:ro,z` becomes writable, and what follows the mode
    (`ComposeMounts.ShortModeIsLostIff`, `ExtraPartsAreLostIff`); in the long one all but four keys
    (`ComposeValueLosses.LongMountKeyIsLostIff`);
  - of a health check or logging section: unread keys and values that cannot be read, which become the defaults
    (`ComposeValueLosses.HealthKeyIsLostIff`, `LogKeyIsLostIff`, `LogOptionIsLostIff`);
  - dependencies on what is no service of the file (`ComposeValueLosses.DependencyIsLostIff`, `DependencyEntryIsLostIff`);
  - earlier assignments of a variable (`ComposeService.VariablesConserveIff`).

  `ComposeServiceLosses.ValueDecides` carries what is lost in the value of a service's key to the whole import: two values
  that the key's own mapping does not tell apart are imported alike, and only those.
- A negative start period of a health check becomes none, and a retry count below one becomes one, without the issue that
  other changed values get: `ComposeService.StoredCheckIsSafe`.
- An untagged image of a registry that is named with its port becomes `latest` without the notice that other untagged
  images get: `ComposeText.DefaultIsReportedIff`.
- A drafted service may list dependencies that the draft does not contain: `ComposeLaws.DraftIsClosedIff`.
- The template codec promises to report everything it does not carry across. Release notes are exported and not imported,
  and no issue says so: `TemplateTransfer.BodyArrivesIff`. Of a document written by hand, unknown keys, sections that are
  no list where one is due, and descriptions that are no text go the same way: `TemplateLosses.BodyKeyIsLostIff`,
  `TemplateLosses.TemplateKeyIsLostIff`, `TemplateLosses.DocumentKeyIsLostIff`.
- A token with an `expires_in` of more than 9223372036 seconds does not expire that much later; from one answer to the next
  it may have expired centuries ago: `SingleFlight.ExpiryIsExactIff`, `SingleFlight.LongLifetimeIsPast`.
- A caller that waits for a token refresh may be given the outcome of a later one, if its own refresh failed or minted a
  token with at most a minute left, and only then: `SingleFlightWaiters.WaiterMissesOnlyStale`.
- The pool prefix shown for a Tailscale hostname is not the head of the instance hostname where stack, service and
  environment take more than 54 characters, unless they happen to begin with their own cut and hash:
  `Hostnames.PrefixHeadsInstanceIff`. Nor is the hostname always prefix, hyphen and id: `Hostnames.PrefixNamesInstanceIff`.
- Distinct stack and service pairs do not always get distinct stream names, and a hashed name is never the name of one pair
  only: `Hostnames.StreamNamesCollideIff`, `Hostnames.HashedNameIsShared`.

`dafny verify dfyconfig.toml` checks the whole project.

## Model

| member | source | states |
|---|---|---|
| `DependencyOrder.TopologicalOrder` | lib/types/compose-import.ts:475-508 | The sort computes the order and the cycle issue that the search specifies, from the marks that it keeps |
| `DependencyOrder.OrderIsSorted` | lib/types/compose-import.ts:469-508 | For every list and dependency map: a cycle issue appears if and only if the graph restricted to the listed services has a cycle (self-loops included), its walk is a real dependency walk that ends in a service it already passed, and then the file order stays. Without a cycle the order is a duplicate-free permutation in which every dependency precedes its dependent and a service is emitted only because one listed at or before it needs it. A list already in order comes back unchanged and without an issue |
| `DependencyUnfolding.OrderUnfolds` | lib/types/compose-import.ts:475-508 | Without a cycle the order is the unfolding of all services in file order, each one after the unfoldings of its dependencies in declared order, of which only the first occurrence of every service is kept |
| `DependencyUnfolding.DeclaredOrderStays` | lib/types/compose-import.ts:499-501 | Two dependencies of one service come in declared order, if neither a service listed earlier nor a dependency declared earlier nor the first of the two needs the second |
| `DependencyUnfolding.ExploreUnfolds` | lib/types/compose-import.ts:484-504 | One visit emits what is new in the unfolding of the service |
| `DependencyOrder.ExploreKeepsGood` | lib/types/compose-import.ts:484-504 | One visit: nothing on the trail is emitted, all that is emitted is needed and comes after its dependencies unless a cycle was met, a met cycle is real, and the service is emitted unless it closed a cycle |
| `DependencyOrder.ExploreAllKeepsGood` | lib/types/compose-import.ts:499-501 | The same over the dependencies of one service, all of which are emitted unless a cycle was met |
| `DependencyOrder.OrderedPrefixStays` | lib/types/compose-import.ts:475-508 | While the list is in order, the search emits each service as it comes |
| `DependencyOrder.Sorter.Visit` | lib/types/compose-import.ts:484-504 | The recursive visit over the marks does what the search on trail and emitted services specifies; the services marked `visiting` are exactly those on the trail and the ones marked `done` exactly the emitted ones |
| `DependencyOrder.Sorter.VisitAll` | lib/types/compose-import.ts:499-501 | The loop over dependencies does the same for a list |
| `DependencyOrder.WalkDescends` | lib/types/compose-import.ts:469-474 | Along any walk through a list in dependency order, positions strictly fall |
| `DependencyOrder.OrderRefutesCycle` | lib/types/compose-import.ts:475-508 | A dependency-first listing of all services exists only if there is no cycle |
| `DependencyOrder.LassoIsCycle` | lib/types/compose-import.ts:487-496 | The walk that a cycle message shows contains a closed walk |
| `DependencyOrder.MeetingTheTrailIsACycle` | lib/types/compose-import.ts:487-496 | Meeting a service on the trail closes such a walk |
| `ComposeImport.MapComposeToTemplate` | lib/types/compose-import.ts:525-824 | With every early exit, the result is the one the specification gives for the document: services in the order of the sort, then networks, volumes and all issues in order |
| `ComposeImport.OrderServices` | lib/types/compose-import.ts:556-564 | The order and the cycle issue are those of the sort over the file's names and dependencies |
| `ComposeLaws.OrderHolds` | lib/types/compose-import.ts:556-564 | The order holds exactly the services of the file, and without a cycle each after its dependencies |
| `ComposeImport.ReadDependencies` | lib/types/compose-import.ts:558-563 | Every service of the file gets its declared dependencies, none if it is not a mapping |
| `ComposeImport.MapService` | lib/types/compose-import.ts:568-746 | A service is drafted exactly if it is a mapping with a valid name and an image, otherwise one issue says why; its named volumes, and only they, join the referenced ones |
| `ComposeImport.MapServices` | lib/types/compose-import.ts:566-747 | All services in order, their issues concatenated in that order, and the volumes they mount in order of first mention |
| `ComposeImport.MapDeclared` | lib/types/compose-import.ts:761-795 | Top-level networks or volumes: external ones skipped with an issue, the others kept with their non-empty driver |
| `ComposeImport.DeclareReferenced` | lib/types/compose-import.ts:797-809 | Exactly the mounted volumes that are not declared yet are declared, each with one issue |
| `ComposeImport.MapTopLevel` | lib/types/compose-import.ts:761-823 | The networks and volumes of the draft and everything said about them |
| `ComposeImport.ReferencedOnce` | lib/types/compose-import.ts:556-556 | The set of referenced volumes has no duplicates and holds every named volume of every drafted service |
| `ComposeLaws.ServiceIsAt` | lib/types/compose-import.ts:737-746 | Every drafted service is an importable service of the file, mapped with its own index in the order |
| `ComposeLaws.KeptIsDrafted` | lib/types/compose-import.ts:568-746 | Every importable service is drafted |
| `ComposeLaws.PlacesIncrease` | lib/types/compose-import.ts:737-746 | `order` strictly increases along the draft |
| `ComposeLaws.DraftedDependencies` | lib/types/compose-import.ts:728-728 | The `dependsOn` of a drafted service are its declared dependencies that are services of the file |
| `ComposeLaws.DependenciesComeFirst` | lib/types/compose-import.ts:469-474 | Without a cycle, every drafted dependency has a smaller `order` than its dependent |
| `ComposeLaws.EveryServiceIsAccountedFor` | lib/types/compose-import.ts:568-600 | Every service of the file is drafted once or left out by exactly one issue that says so, never both, in the whole result of an import |
| `ComposeLaws.ServicesBalance` | lib/types/compose-import.ts:568-600 | The same balance for any list of services, counted with repetition |
| `ComposeLaws.ImportSucceedsIff` | lib/types/compose-import.ts:750-823 | A draft is made if and only if some service is importable, error issues about other services notwithstanding |
| `ComposeLaws.DraftIsClosedIff` | lib/types/compose-import.ts:728-728 | The draft contains every service that its `dependsOn` lists name if and only if no importable service depends on a skipped one |
| `ComposeLaws.VolumesAreDeclaredOnce` | lib/types/compose-import.ts:778-809 | Every volume mounted by name is declared, no volume twice, and none that is neither declared by the document nor mounted |
| `ComposeLaws.SourcesAre` | lib/types/compose-import.ts:360-366 | The volumes collected from a list of mounts are exactly the sources of its volume-type mounts |
| `ComposeReports.DocumentIsReportedIff` | lib/types/compose-import.ts:535-823 | What is said of the document: a version exactly if it has one, a cycle exactly if its services have one, a volume declared for the user exactly if a drafted service mounts it and the document does not declare it, missing networks exactly if there are none for several services |
| `ComposeReports.WhySkipped` | lib/types/compose-import.ts:571-600 | A service is imported if and only if it is a mapping with an image and a name of letters, digits, `_` and `-`; otherwise a single issue says which of these is missing, and whether it has a `build` instead |
| `ComposeRoundTrip.ImportInvertsWrite` | lib/types/compose-import.ts:525-824 | Any draft that a document can express is imported from the document that it is written as, services, settings, order, networks and volumes, with no issue but the one about missing networks |
| `ComposeRoundTrip.ImportIsExpressible` | lib/types/compose-import.ts:525-824 | Such is every draft made from a document without cycles all of whose services are imported, mounts with an empty source or target aside |
| `ComposeRoundTrip.ImportTwice` | lib/types/compose-import.ts:525-824 | Writing that draft and importing it again changes nothing |
| `ComposeRoundTrip.KeysAreRead` | lib/types/compose-import.ts:607-735 | A service written from its settings is read as these settings, without an issue |
| `ComposeWriter.ReadInvertsWrite` | lib/types/compose-import.ts:607-735 | For every key: what a setting is written as is read as that setting, without an issue |
| `ComposeWriter.SettingsFit` | lib/types/compose-import.ts:607-735 | A key never has any other setting than one that can be written for it, mounts with an empty source or target aside |
| `ComposeWriter.ShellForm` | lib/types/compose-import.ts:616-642 | A command or entrypoint given as one text is run by `/bin/sh -c`, with an issue |
| `ComposeWriter.ShellTest` | lib/types/compose-import.ts:427-432 | A health test given as one text is the list of `CMD-SHELL` and that text; nothing else of the check changes |
| `ComposeWriter.ListedVariables` | lib/types/compose-import.ts:68-110 | Variables listed as `NAME=value` are those of the mapping |
| `ComposeWriter.MappedNames` | lib/types/compose-import.ts:700-735 | Dependencies and networks given as a mapping are the list of its keys, with an issue |
| `ComposeWriter.RefusedKeysAreReported` | lib/types/compose-import.ts:203-221 | Each of the seventeen keys without a counterpart is reported once, whatever its value |
| `ComposeWriter.KindTable` | lib/types/compose-import.ts:607-735 | Which keys are mapped in which way |
| `ComposeLosses.TopLevelKeyIsLostIff` | lib/types/compose-import.ts:7-14 | Deleting a top-level key with a value leaves the whole result unchanged if and only if it is not one of `services`, `version`, `networks` and `volumes`; or it is `services` or `version` and the file has no services; or it is `networks` or `volumes` and its section has no entry, or no service can be imported |
| `ComposeLosses.NamedKeyIsLostIff` | lib/types/compose-import.ts:761-795 | Of a network's or volume's settings, deleting a key changes nothing if and only if it is neither `external: true` nor a driver that counts |
| `ComposeLosses.NamedValueIsLost` | lib/types/compose-import.ts:761-795 | Settings that are no mapping are treated as none, without an issue |
| `ComposeLosses.SectionConserves` | lib/types/compose-import.ts:761-795 | Every entry of a top-level section is declared or reported once |
| `ComposeLosses.ImportReads` | lib/types/compose-import.ts:525-824 | Two documents that agree on `services`, `version`, `networks` and `volumes` are imported alike |
| `ComposeLosses.KeyOfServiceIsLostIff` | lib/types/compose-import.ts:7-14 | Deleting a key with a value from an importable service changes neither what is made of it nor what is said about it if and only if the key is not known to the importer or its value has a shape the key does not read |
| `ComposeLosses.HostnameIsLost` | lib/types/compose-import.ts:7-14 | Two such losses: deleting `hostname`, or `ports` written as one text, changes neither the drafted service nor its issues |
| `ComposeServiceLosses.ServiceKeyIsLostIff` | lib/types/compose-import.ts:7-14 | The same for the whole import: deleting a key with a value from an importable service leaves the result as it is if and only if the key is inert |
| `ComposeServiceLosses.SkippedKeyIsLostIff` | lib/types/compose-import.ts:571-600 | Of a service that is skipped, deleting a key with a value other than `depends_on` leaves the import as it is if and only if it is not the `build` that explains a missing image |
| `ComposeServiceLosses.ValueDecides` | lib/types/compose-import.ts:607-735 | Two values of a key of an importable service are imported alike, all issues included, if and only if the mapping of that key makes the same setting and issues of them |
| `ComposeServiceLosses.OneServiceDecides` | lib/types/compose-import.ts:566-747 | Two documents that differ in one service, which the first can import, are imported alike if and only if that service and its issues come out alike |
| `ComposeServiceLosses.OnlyEdgesCount` | lib/types/compose-import.ts:484-504 | The order and the cycle issue depend on the dependencies between services of the file only |
| `ComposeServiceLosses.MountModeIsLostIff` | lib/types/compose-import.ts:371-409 | From one entry to the whole import: a mount mode other than `ro`, such as `ro,z`, can be deleted without a trace if and only if the source is no path |
| `ComposeValueLosses.PortEntryDecides` | lib/types/compose-import.ts:227-329 | Replacing one entry of a list of ports shows if and only if that entry alone is mapped or reported differently |
| `ComposeValueLosses.MountEntryDecides` | lib/types/compose-import.ts:344-413 | The same for a list of mounts |
| `ComposeValueLosses.LongPortKeyIsLostIff` | lib/types/compose-import.ts:236-255 | Deleting a key of a long-syntax port changes nothing if and only if the port is carried over, and the key is none of three, or it is a published port that reads as zero or not at all, or a protocol other than `udp`; the issue of a skipped port spells out the whole entry |
| `ComposeValueLosses.LongMountKeyIsLostIff` | lib/types/compose-import.ts:353-369 | The same for a long-syntax mount that is carried over: none of four keys, or a type other than `bind`, or a `read_only` other than true |
| `ComposeValueLosses.HealthKeyIsLostIff` | lib/types/compose-import.ts:419-457 | Deleting a key of a health check changes nothing if and only if it is none of six; or a `disable` other than true; or another of the six in a check that is disabled or has no test; or its value reads as the default, with a start period of at most zero |
| `ComposeValueLosses.RetriesIsThreeIff` | lib/types/compose-import.ts:419-457 | Retries come out as the default three if and only if they read as three or not at all |
| `ComposeValueLosses.LogKeyIsLostIff` | lib/types/compose-import.ts:718-726 | Deleting a key of a logging section changes nothing if and only if it is none of two, or the driver `json-file`, or options that read as the defaults |
| `ComposeValueLosses.LogOptionIsLostIff` | lib/types/compose-import.ts:718-726 | Deleting one of the options changes nothing if and only if it is none of two or has its default |
| `ComposeValueLosses.DependencyIsLostIff` | lib/types/compose-import.ts:728-734 | An entry of a dependency list can be deleted without a trace if and only if it names no service of the file |
| `ComposeValueLosses.DependencyEntryIsLostIff` | lib/types/compose-import.ts:728-734 | The same for an entry of a dependency mapping, with its conditions |
| `ComposeService.KeyIsLostSilentlyIff` | lib/types/compose-import.ts:607-735 | The same for the settings and issues of one service's keys |
| `ComposeService.NothingIffInert` | lib/types/compose-import.ts:614-735 | For each kind of key, the values that leave neither a setting nor an issue are exactly the inert ones |
| `ComposeService.KeysAreKnown` | lib/types/compose-import.ts:203-221 | Exactly the refused and the carried keys are looked at |
| `ComposeService.MapKeys` | lib/types/compose-import.ts:607-735 | All keys in order: settings, issues in order, and named volumes |
| `ComposeService.MapKey` | lib/types/compose-import.ts:614-735 | What one key becomes and what is said about it; only mounts touch the referenced volumes |
| `ComposeService.ToStringMap` | lib/types/compose-import.ts:68-110 | The assignments of a map or a `NAME=value` list, last one winning, and one issue per entry without a value |
| `ComposeService.MapHealthcheck` | lib/types/compose-import.ts:419-457 | No check if absent, disabled or without a test; otherwise durations clamped to one second, retries at least one, and an issue per clamped field in the order interval, timeout, start period |
| `ComposeService.VariablesConserveIff` | lib/types/compose-import.ts:68-110 | Values plus `unsupported` issues equal the entries of an environment or label section if and only if no name is assigned twice, and never exceed them |
| `ComposeService.LastAssignmentWins` | lib/types/compose-import.ts:68-110 | Exactly the assigned names have a value, each that of its last assignment |
| `ComposeService.StoredCheckIsSafe` | lib/types/compose-import.ts:170-192 | No stored interval, timeout or start period lies between 1 and 999, retries are at least one, and a field has a `lossy` issue if and only if it was changed, except that a negative start period silently becomes none |
| `ComposeService.RestartIsRead` | lib/types/compose-import.ts:667-688 | A known policy is kept, its retry count is dropped with an issue, anything else is skipped with one |
| `ComposePorts.MapPorts` | lib/types/compose-import.ts:227-329 | The ports and issues of a list, entry by entry |
| `ComposePorts.MapPort` | lib/types/compose-import.ts:235-255 | One entry of the list; the long syntax by its target, published port and protocol |
| `ComposePorts.MapShortPort` | lib/types/compose-import.ts:257-325 | One entry of the short syntax, with every early exit |
| `ComposePorts.PortsConserve` | lib/types/compose-import.ts:227-329 | Emitted ports plus new `unsupported` issues equal the length of the list |
| `ComposePorts.PortIsAccounted` | lib/types/compose-import.ts:235-325 | Each entry is emitted or reported by exactly one `unsupported` issue |
| `ComposePorts.ShortPortMeaning` | lib/types/compose-import.ts:257-325 | Whatever of address, host port, container port and protocol a text is written from: the container port is the number written, the host port the published number or zero, the protocol UDP exactly if `udp` is written, and the port is exposed exactly if a published number reads as positive; a `lossy` issue exactly if an address was lost or no host port given |
| `ComposePorts.LongPortMeaning` | lib/types/compose-import.ts:235-255 | The same for the long syntax, which says nothing; without a numeric target the entry is skipped and quoted |
| `ComposePorts.LongPortIgnoresIff` | lib/types/compose-import.ts:236-255 | Setting any other key of a long-syntax port changes nothing if and only if the port is carried over or the key already had that value |
| `ComposePorts.ShortProtocolIsLostIff` | lib/types/compose-import.ts:257-325 | A written protocol can be left out without a trace if and only if it is not `udp` and the port calls for no issue: no address, a host part, a readable container port |
| `ComposePorts.ShortHostIsLostIff` | lib/types/compose-import.ts:257-325 | A written host part gives an unbound port and no issue if and only if there is no address and it reads as zero or not at all |
| `ComposePorts.HostAddressIsReportedInShortFormOnly` | lib/types/compose-import.ts:236-287 | A host address is reported in the short syntax; in the long one it is lost without a word if and only if the port is carried over or the address was there already |
| `ComposeMounts.MapMounts` | lib/types/compose-import.ts:344-413 | The mounts and issues of a list, and its volume-type sources added to the referenced volumes in order |
| `ComposeMounts.MapMount` | lib/types/compose-import.ts:353-409 | One entry, long or short, with every early exit |
| `ComposeMounts.MountsConserve` | lib/types/compose-import.ts:344-413 | Emitted mounts plus new `unsupported` issues equal the length of the list |
| `ComposeMounts.MountIsAccounted` | lib/types/compose-import.ts:353-409 | Each entry is emitted or reported by exactly one `unsupported` issue |
| `ComposeMounts.ShortMountMeaning` | lib/types/compose-import.ts:371-409 | A mount written from source, target and mode is read as that mount; a relative bind source is skipped, an absolute one noted |
| `ComposeMounts.SourceDecides` | lib/types/compose-import.ts:335-342 | A source that begins with a slash is a bind mount with an issue, one that begins with `./`, `../` or `~` is skipped with one, any other is a volume |
| `ComposeMounts.ShortModeIsLostIff` | lib/types/compose-import.ts:371-409 | A written mode can be left out without a trace if and only if it is not `ro` and the source is no path |
| `ComposeMounts.ExtraPartsAreLostIff` | lib/types/compose-import.ts:371-409 | Whatever follows the mode can be left out without a trace if and only if the source is no path |
| `Sequences.AddAllMembers` | lib/types/compose-import.ts:556-556 | Adding names to a set keeps it duplicate-free and adds exactly them |
| `ImportOutcomes.OutcomesConserve` | lib/types/compose-import.ts:7-14 | If every entry is kept or reported once, kept entries and reports add up to the entries |
| `ComposeText.JoinInvertsSplitImage` | lib/types/compose-import.ts:154-168 | Joining the parts of a split image reference gives the reference back; a tag holds neither colon nor slash, so a registry port is never taken for one |
| `ComposeText.SplitInvertsTag` | lib/types/compose-import.ts:162-166 | Any image and tag that are joined by a colon are split into the same two |
| `ComposeText.SplitInvertsDigest` | lib/types/compose-import.ts:155-160 | Any image and digest that are joined by `@` are split into the same two |
| `ComposeText.DefaultIsReportedIff` | lib/types/compose-import.ts:598-605 | An untagged reference always becomes `latest`; that is reported if and only if the reference holds no colon |
| `ComposeText.RegistryPortHidesDefault` | lib/types/compose-import.ts:598-605 | Every untagged image of a registry named with its port becomes `latest` in silence |
| `ComposeText.JoinInvertsSplit` | lib/types/compose-import.ts:275-275 | Splitting at a character and joining again gives the text back |
| `ComposeDuration.ParseComposeDuration` | lib/types/compose-import.ts:124-145 | The loop over matches sums all terms of the text; without any, the text is read as seconds |
| `ComposeDuration.WrittenDuration` | lib/types/compose-import.ts:119-145 | A duration written from any terms (digits, optional fraction, unit) is read as the rounded sum of the terms |
| `ComposeDuration.WrittenTerms` | lib/types/compose-import.ts:128-136 | The terms found in a written duration are exactly those it was written from |
| `ComposeDuration.UnitsInSeconds` | lib/types/compose-import.ts:124-145 | A whole number of any unit is as long as so many seconds given as a bare number |
| `ComposeDuration.RoundIsNearest` | lib/types/compose-import.ts:144-144 | Rounding goes to the nearest millisecond, halves upwards |
| `TemplateDraft.StripNulls` | lib/types/template-draft.ts:38-51 | The recursion with its loop over an object's entries computes the strip of any well-formed value |
| `TemplateDraft.StripObject` | lib/types/template-draft.ts:43-48 | One object, rebuilt key by key without the null-valued ones |
| `TemplateDraft.StripNullIsProjection` | lib/types/template-draft.ts:27-37 | The result has no null-valued key at any depth, and stripping it again changes nothing |
| `TemplateDraft.StripNullFixesIff` | lib/types/template-draft.ts:27-37 | A value is left alone if and only if it has no null-valued key |
| `TemplateDraft.GetStripped` | lib/types/template-draft.ts:27-37 | Stripping acts key by key: null becomes absence, every other value its own strip, and no key is invented |
| `TemplateDraft.ServiceIsLossless` | lib/types/stack-templates.ts:366-392 | Every field of a stored service but `id` and `versionId` survives, no other appears, and stripping again changes nothing |
| `TemplateDraft.DatabaseKeysGo` | lib/types/template-draft.ts:101-141 | `id` and `versionId` do not survive |
| `TemplateDraft.ConfigFileIsLossless` | lib/types/stack-templates.ts:394-404 | Exactly the fields of a stored config file but `id` and `versionId` survive |
| `TemplateDraft.DraftIsLossless` | lib/types/template-draft.ts:53-99 | Every section of the draft type, read off the version: nulls become absence except in `vault` and `nats`, which stay as they are; nothing else is in it |
| `TemplateTransfer.RedactVaultSecrets` | lib/types/template-transfer.ts:112-137 | The section with its literals replaced, and one issue per literal in order |
| `TemplateTransfer.RedactOneEntry` | lib/types/template-transfer.ts:118-134 | One entry: everything but the literals as it was |
| `TemplateTransfer.RedactEntryFields` | lib/types/template-transfer.ts:119-132 | The loop over an entry's fields |
| `TemplateTransfer.RedactionHidesExactlyLiterals` | lib/types/template-transfer.ts:107-111 | Two lists of fields are redacted to the same list if and only if they differ in literal values only |
| `TemplateTransfer.FieldIsRedactedIff` | lib/types/template-transfer.ts:97-132 | A field becomes the placeholder exactly if its value is given as a text |
| `TemplateTransfer.LiteralsAreNamedIff` | lib/types/template-transfer.ts:119-132 | Exactly these are named, by the path of their entry and their own name |
| `TemplateTransfer.ExportHidesExactlyLiterals` | lib/types/template-transfer.ts:12-18 | Two vault sections are exported alike if and only if they differ in literal values only: the export reveals nothing about a secret and keeps everything else |
| `TemplateTransfer.RedactFieldsTwice` | lib/types/template-transfer.ts:112-137 | Redacting twice is redacting once |
| `TemplateTransfer.BuildTemplateExportDocument` | lib/types/template-transfer.ts:144-165 | The document, and the issues of its redactions |
| `TemplateTransfer.ExportedSections` | lib/types/template-transfer.ts:144-165 | The exported body is the lossless draft with the vault section redacted |
| `TemplateTransfer.DetectRedactedSecrets` | lib/types/template-transfer.ts:172-191 | Every placeholder in any body, well-typed or not, is reported in order |
| `TemplateTransfer.DetectInFields` | lib/types/template-transfer.ts:180-189 | The loop over the fields of one entry |
| `TemplateTransfer.ImportNamesWhatExportRemoved` | lib/types/template-transfer.ts:170-191 | An import of an export reports exactly the fields the export redacted, in the same order |
| `TemplateTransfer.MapTemplateImportDocument` | lib/types/template-transfer.ts:209-326 | Every check in order, each early failure, and the shaped request |
| `TemplateTransfer.PassSections` | lib/types/template-transfer.ts:302-317 | The loop over the passed-through sections |
| `TemplateTransfer.GetPassed` | lib/types/template-transfer.ts:193-196 | A listed section arrives if it is present and not null; nothing else is touched |
| `TemplateTransfer.ImportSucceedsIff` | lib/types/template-transfer.ts:209-326 | Any document imports if and only if it is a named template of the current format; success means no error issue and a request |
| `TemplateTransfer.OnlyNamesBlock` | lib/types/template-transfer.ts:239-290 | Of all findings only a missing name or display name blocks |
| `TemplateTransfer.ExportThenImport` | lib/types/template-transfer.ts:144-326 | The import of an export succeeds if and only if both names are non-empty; its issues are those of the names, the scope (unless host or environment) and the subject prefix, then the export's own |
| `TemplateTransfer.RequestReads` | lib/types/template-transfer.ts:239-300 | Whatever the document, the name, display name, description, category and network type of a request are those of their own key of the template, and the scope is `host` exactly if the template says so |
| `TemplateTransfer.EnvelopeArrives` | lib/types/template-transfer.ts:144-300 | An export followed by an import keeps each of them, and the scope of host and environment templates |
| `TemplateTransfer.DocumentParts` | lib/types/template-transfer.ts:144-165 | Format, time, source version, template and version of the exported document |
| `TemplateTransfer.FindingsIff` | lib/types/template-transfer.ts:239-284 | Each check speaks up exactly if: the name is empty or no text, so the display name; the scope is neither host nor environment; the subject prefix is a text, not empty and not the default |
| `TemplateTransfer.SectionsArrive` | lib/types/template-transfer.ts:292-317 | Every section of the exported body arrives in the request unchanged, except `notes` |
| `TemplateTransfer.BodyArrivesIff` | lib/types/template-transfer.ts:24-25 | The whole body arrives if and only if the version has no release notes |
| `TemplateTransfer.NotesAreNeverNamed` | lib/types/template-transfer.ts:24-25 | No import issue names the notes: their loss is silent |
| `TemplateLosses.DocumentKeyIsLostIff` | lib/types/template-transfer.ts:209-237 | Deleting a key with a value from any document leaves the import as it is if and only if it is none of `format`, `template` and `version`, or an earlier part is unreadable already |
| `TemplateLosses.TemplateKeyIsLostIff` | lib/types/template-transfer.ts:239-300 | The same for any template: none of six keys; an empty or non-text name; a scope that reads `unset`; a description, category or network type that is no text or comes in a document without its names |
| `TemplateLosses.BodyKeyIsLostIff` | lib/types/template-transfer.ts:263-319 | The same for any version body: a key that is not passed on; networks, volumes or services that are no list or an empty one; in a document without its names any section but a vault with placeholders and a custom subject prefix |
| `SingleFlight.LegitimateRefresh` | auth-proxy-poc/main.go:111-150 | A refresh that succeeds yields a non-empty token, whatever the endpoint answers |
| `SingleFlight.ExpiryIsFutureIff` | auth-proxy-poc/main.go:145-149 | Its expiry lies in the future if and only if the nanoseconds of its lifetime, taken in 64 bits, are positive |
| `SingleFlight.ExpiryIsExactIff` | auth-proxy-poc/main.go:145-149 | It lies exactly the lifetime ahead if and only if `expires_in` is at most 9223372036, and then it is in the future |
| `SingleFlight.LongLifetimeIsPast` | auth-proxy-poc/main.go:145-149 | One second more, and the token expired centuries ago |
| `SingleFlightEndpoint.RefreshMintsIff` | auth-proxy-poc/main.go:111-150 | A refresh mints a token if and only if the answer is a 200 that decodes, with a lifetime of 64 bits and a non-empty token, and then that token |
| `SingleFlightEndpoint.ResultsComeFromAnswers` | auth-proxy-poc/main.go:68-150 | In every interleaving a token that a caller gets was granted by an answer of the endpoint, and an error stems from an answer that granted none |
| `SingleFlight.StepKeepsInv` | auth-proxy-poc/main.go:68-109 | Every statement of every caller, every endpoint answer, cancellation and passage of time keeps the invariant |
| `SingleFlight.ReachableInv` | auth-proxy-poc/main.go:68-109 | The invariant holds in every reachable state of every interleaving |
| `SingleFlight.OthersKeepOk` | auth-proxy-poc/main.go:68-109 | A statement of one caller never disturbs what is known of another |
| `SingleFlight.SingleRefreshInFlight` | auth-proxy-poc/main.go:53-66 | At most one caller holds the mutex, at most one refresh is in flight, and `refreshing` is set exactly while one leader owns it |
| `SingleFlight.NoWaiterIsStranded` | auth-proxy-poc/main.go:75-98 | A waiter's channel is closed, or the current one, or about to be closed by the leader that holds the mutex |
| `SingleFlight.ResultsAreJustified` | auth-proxy-poc/main.go:68-109 | A leader returns its own outcome, a waiter the latest one completed when it read, which completed after it joined; no caller gets an empty token; a waiter that read before another refresh completed gets the outcome of the one it waited for |
| `SingleFlightWaiters.WaiterMissesOnlyStale` | auth-proxy-poc/main.go:83-88 | A waiter returns something else than the outcome of the refresh it waited for only if that refresh failed or its token has at most 60 seconds left |
| `SingleFlightWaiters.WaiterReadsItsOwn` | auth-proxy-poc/main.go:83-88 | A waiter that comes to read while the token of its own refresh has more than 60 seconds left finds that token, no error, and no later refresh |
| `SingleFlightWaiters.StepKeepsSuperseded` | auth-proxy-poc/main.go:70-91 | Every step keeps: no refresh begins while the outcome of the one before it would still be served |
| `SingleFlightWaiters.WaiterCanMissItsOwnRefresh` | auth-proxy-poc/main.go:83-88 | The first exception is reachable: a waiter fails although the refresh it waited for minted a token, one with 60 seconds left |
| `SingleFlightWaiters.WaiterCanMissAFailure` | auth-proxy-poc/main.go:83-88 | The second is reachable: a waiter gets a token although the refresh it waited for failed |
| `SingleFlight.SomeoneCanMove` | auth-proxy-poc/main.go:68-109 | No deadlock: while a caller is unfinished, some caller can move or is at the token endpoint |
| `SingleFlight.EveryoneCanFinish` | auth-proxy-poc/main.go:68-109 | From every reachable state all callers can be run to their end, whatever the endpoint answers |
| `SingleFlight.EverySchedulesWorkIsBounded` | auth-proxy-poc/main.go:68-109 | No schedule keeps the callers busy for ever: the work done is bounded by their initial rank |
| `AcmePipeline.StepKeepsInv` | acme/src/http.ts:122-208 | Every action of signed and unsigned requests and of the server keeps the invariant |
| `AcmePipeline.ReachableInv` | acme/src/http.ts:122-208 | The invariant holds in every reachable state |
| `AcmePipeline.RefillKeepsNonces` | acme/src/http.ts:143-146 | An unsigned read may overwrite the slot at any moment: a nonce is lost, never doubled |
| `AcmePipeline.NonceSpentOnce` | acme/src/http.ts:122-178 | If the server never repeats a nonce, no two POSTs carry the same one and each was issued (section 6.5 of RFC 8555) |
| `AcmePipeline.HeldNoncesAreSpendable` | acme/src/http.ts:127-141 | The cached nonce and the one in hand are issued, unspent and distinct, and at most one request holds one |
| `AcmePipeline.RequestsAreSerial` | acme/src/http.ts:203-207 | Each request being chained onto the tail it found, a signed request starts only after all earlier ones have settled, and POSTs go out in submission order |
| `AcmePipeline.RetriesAreBounded` | acme/src/http.ts:162-200 | At most `maxBadNonceRetries + 1` POSTs per request; a badNonce rejection means the budget was spent, success means a POST was made |
| `AcmePipeline.OutcomeIsTheReply` | acme/src/http.ts:176-200 | A request is fulfilled only if the reply to its last POST has a status below 400, and rejected only if that has 400 or more; it is told of a bad nonce exactly if that reply was a 400 badNonce problem |
| `AcmePipeline.RetriesFollowBadNonce` | acme/src/http.ts:176-181 | Between any two POSTs of one request the server answered it with a 400 badNonce problem |
| `AcmePipeline.RepliesAnswerPosts` | acme/src/http.ts:155-200 | Every reply answers a POST of its own request, each another one, in order |
| `AcmePipeline.SlotIsUsed` | acme/src/http.ts:122-141 | A nonce that a reply brings is cached; a cached one leaves the slot only for a newer one or into the hand of the request that signs next; none is asked for while one is cached |
| `AcmePipeline.NothingBlocks` | acme/src/http.ts:203-207 | A settled request, fulfilled or rejected, lets the next one start, and an unsettled one always has something that can move |
| `AcmePipeline.WorkIsBounded` | acme/src/http.ts:162-208 | Each submission takes part in at most `6 * retries + 6` actions, whatever the server answers |
| `Der.EncodeLength` | acme/src/crypto/asn1.ts:1-10 | The loop with its 32-bit shift computes the length octets |
| `Der.LengthDecodes` | acme/src/crypto/asn1.ts:1-10 | A length below 2^32 decodes to itself, whatever follows (section 8.1.3 of ITU-T X.690) |
| `Der.LengthCanonical` | acme/src/crypto/asn1.ts:1-10 | The strict decoder, which refuses every non-minimal form, accepts only these octets (section 10.1) |
| `Der.LengthRoundTripsIff` | acme/src/crypto/asn1.ts:1-10 | A length survives if and only if it is below 2^32 |
| `Der.Integer` | acme/src/crypto/asn1.ts:28-37 | The loop computes the content octets of a number |
| `Der.IntegerDenotes` | acme/src/crypto/asn1.ts:28-37 | The content is the shortest two's complement form of the absolute value (section 8.3.2) |
| `Der.IntegerRoundTripsIff` | acme/src/crypto/asn1.ts:28-37 | An integer survives if and only if it is not negative |
| `Der.IntegerUnique` | acme/src/crypto/asn1.ts:28-37 | No other shortest content denotes the same non-negative number |
| `Der.BufferDenotes` | acme/src/crypto/asn1.ts:22-26 | A buffer keeps its unsigned value, and is shortest if and only if it has no redundant leading zero |
| `Der.DecodeInvertsEncode` | acme/src/crypto/asn1.ts:12-19 | Any well-formed tree followed by any octets decodes to that tree and those octets |
| `Der.DecodeInvertsEncodeAll` | acme/src/crypto/asn1.ts:12-19 | A list of trees decodes to itself |
| `Der.EncodeInvertsDecode` | acme/src/crypto/asn1.ts:12-19 | The strict decoder accepts nothing but what the encoder produces |
| `Der.EncodeAllInvertsDecodeAll` | acme/src/crypto/asn1.ts:12-19 | The same for lists |
| `Der.EncodingIsPrefixFree` | acme/src/crypto/asn1.ts:12-19 | No encoding is a prefix of a different one |
| `Der.BuildersMakeNodes` | acme/src/crypto/asn1.ts:15-78 | `sequence`, `set`, `octetString`, `bitString` and `contextSpecific` build exactly such trees |
| `Der.Oid` | acme/src/crypto/asn1.ts:45-65 | The loop over arcs computes the content; fewer than two arcs is the error |
| `Der.EncodeArc` | acme/src/crypto/asn1.ts:56-62 | The loop for one arc above 127 computes its base-128 octets |
| `Der.OidRoundTripsIff` | acme/src/crypto/asn1.ts:45-65 | The subidentifiers survive if and only if the first is below 128 and every other arc below 2^32 (section 8.19) |
| `Der.ArcsDecode` | acme/src/crypto/asn1.ts:50-63 | Splitting at octets with a clear high bit recovers each arc modulo 2^32 in order |
| `NatsCreds.SplitCredsBody` | egress-shared/natsbus/bus.go:460-470 | The token and the seed, or the first error |
| `NatsCreds.ExtractArmored` | egress-shared/natsbus/bus.go:485-514 | The text between the leftmost markers without blanks and asterisk lines, or the error for a missing marker or empty content |
| `NatsCreds.SplitLines` | egress-shared/natsbus/bus.go:519-532 | The index loop splits at line ends, without an empty last line |
| `NatsCreds.TrimSpace` | egress-shared/natsbus/bus.go:534-543 | The two index loops strip blanks at both ends |
| `NatsCreds.IsAllAsterisks` | egress-shared/natsbus/bus.go:549-559 | True exactly for non-empty texts of asterisks |
| `NatsCreds.FenceMatches` | egress-shared/natsbus/bus.go:475-487 | A marker line with three or more dashes on either side, however many, is matched to the end of the blanks after it |
| `NatsCreds.SkipEntries` | egress-shared/natsbus/bus.go:486-496 | No marker is found before or inside the lines of a section, even where they begin with dashes |
| `NatsCreds.ExtractFinds` | egress-shared/natsbus/bus.go:485-514 | A section printed in armor is extracted as exactly the text its lines carry |
| `NatsCreds.ExtractFailsIff` | egress-shared/natsbus/bus.go:485-514 | A section is rejected for a missing opening marker exactly if no line is one, for a missing closing one exactly if none follows the first opening one, and for empty content exactly if nothing but blanks and asterisks lies between |
| `NatsCreds.FindIsLeftmost` | egress-shared/natsbus/bus.go:485-493 | What is found is the first marker, if there is any |
| `NatsCreds.FirstErrorIsReported` | egress-shared/natsbus/bus.go:460-470 | Both sections are needed, and an error about the token comes first |
| `NatsCreds.VisibleIsSecretIff` | egress-shared/natsbus/bus.go:499-509 | Nothing of a secret is dropped if and only if none of its pieces consists of asterisks |
| `NatsCreds.SplitInvertsPrintIff` | egress-shared/natsbus/bus.go:454-514 | Parsing what was printed gives back token and seed, for any dash counts, gaps, wrapping, padding and text around the sections, if and only if no piece of either is all asterisks |
| `KvCache.ReachableInv` | egress-shared/natsbus/jetstream.go:69-89 | The lock and cache invariant holds in every interleaving |
| `KvCache.OneOpenPerBucket` | egress-shared/natsbus/jetstream.go:69-89 | A bucket is opened successfully at most once |
| `KvCache.SameHandleForAll` | egress-shared/natsbus/jetstream.go:69-89 | All callers of a bucket that get a handle get the one that its only open produced |
| `KvCache.CacheHoldsOnlySuccesses` | egress-shared/natsbus/jetstream.go:83-88 | Only successful opens are cached, a cached handle is never replaced, and a failed open leaves no trace |
| `KvCache.FailsOnItsOwnOpenOnly` | egress-shared/natsbus/jetstream.go:69-89 | A caller that returns is told of a failure exactly if its own open failed |
| `KvCache.SomeoneCanMove` | egress-shared/natsbus/jetstream.go:69-89 | No deadlock, with a lock that keeps readers out while a writer waits |
| `MessageQueue.AsyncMessageQueue.Push` | agent-sidecar/src/async-message-queue.ts:12-22 | The whole new state: ignored if closed, handed to the parked consumer, or queued |
| `MessageQueue.AsyncMessageQueue.Close` | agent-sidecar/src/async-message-queue.ts:25-32 | The whole new state: closed, and the parked consumer told so |
| `MessageQueue.AsyncMessageQueue.Next` | agent-sidecar/src/async-message-queue.ts:40-53 | The whole new state: an item, the end, or a parked consumer |
| `MessageQueue.PerformKeepsValid` | agent-sidecar/src/async-message-queue.ts:6-56 | Every operation keeps: a parked consumer implies an open and empty queue |
| `MessageQueue.PerformConserves` | agent-sidecar/src/async-message-queue.ts:6-56 | One operation adds to deliveries plus queue exactly the item it accepts |
| `MessageQueue.QueueConserves` | agent-sidecar/src/async-message-queue.ts:6-56 | After any calls, deliveries followed by the queue are the pushes made before the first close, in order |
| `MessageQueue.DoneIsFinal` | agent-sidecar/src/async-message-queue.ts:40-53 | After a consumer is told that the queue is done, every later call is told the same |
| `MessageQueue.AbandonedIffOverlaps` | agent-sidecar/src/async-message-queue.ts:50-52 | A call is left without an answer for ever if and only if two calls of `next` ever overlapped |
| `MessageQueue.CloseAnswersAllIff` | agent-sidecar/src/async-message-queue.ts:25-32 | After a close every `next` has been answered if and only if no two overlapped |
| `AgentTurns.TurnStore.CreateTurn` | agent-sidecar/src/turn-store.ts:40-83 | The new turn is stored last and eviction follows; its state is that of `CreationTells` |
| `AgentTurns.TurnStore.TransitionTurn` | agent-sidecar/src/turn-store.ts:137-165 | Succeeds exactly on a running turn, which gets the status, its completion and a closed queue; all else is unchanged |
| `AgentTurns.TurnStore.FailTurn` | agent-sidecar/src/turn-store.ts:120-127 | The same, with the error recorded on success only |
| `AgentTurns.TurnStore.PushMessage` | agent-sidecar/src/turn-store.ts:203-214 | True exactly for a running turn, whose queue takes the message |
| `AgentTurns.TurnStore.DeleteTurn` | agent-sidecar/src/turn-store.ts:216-234 | Closes the queue of a stored turn and cancels it if it runs; the turn stays stored |
| `AgentTurns.TurnStore.RemoveTurn` | agent-sidecar/src/turn-store.ts:236-238 | The turn goes, the order of the others stays |
| `AgentTurns.TurnStore.CanAcceptTurn` | agent-sidecar/src/turn-store.ts:108-110 | True exactly while fewer than five turns run |
| `AgentTurns.TurnStore.EvictOldTurns` | agent-sidecar/src/turn-store.ts:240-250 | Deleting while walking the map removes exactly what the specification evicts |
| `AgentTurns.TurnStore.EvictNext` | agent-sidecar/src/turn-store.ts:243-249 | One step of the walk keeps what eviction will leave |
| `AgentTurns.InternalTurn.MarkFinished` | agent-sidecar/src/turn-store.ts:153-158 | The whole new state of a turn that finishes |
| `AgentTurns.InternalTurn.CloseOff` | agent-sidecar/src/turn-store.ts:220-229 | The whole new state of a turn that is deleted |
| `AgentTurns.EvictionSpares` | agent-sidecar/src/turn-store.ts:240-250 | Eviction keeps every running turn and removes exactly the oldest min(wanted, available) terminal ones |
| `AgentTurns.EvictionCutsAtOnePoint` | agent-sidecar/src/turn-store.ts:240-250 | There is one point before which only running turns are kept and after which everything is |
| `AgentTurns.ReachableStoresAreOk` | agent-sidecar/src/turn-store.ts:40-250 | In every reachable store ids are distinct and a turn is terminal iff its queue is closed iff its completion is set |
| `AgentTurns.TurnStore.SetSession` | agent-sidecar/src/agent/runner.ts:274-278 | The stored turn of that id gets the session; all else is unchanged |
| `AgentTurns.TerminalIsFinal` | agent-sidecar/src/turn-store.ts:141-151 | A terminal turn keeps everything but its queue under every operation, and its session unless that is what the operation sets, for as long as it is stored |
| `AgentTurnHistory.CreationTells` | agent-sidecar/src/turn-store.ts:40-83 | A creation stores a running turn last, whose deliveries and queue are exactly its message |
| `AgentTurnHistory.TurnTellsItsHistory` | agent-sidecar/src/turn-store.ts:40-234 | Every stored turn of every run comes from one creation: its status, completion, duration and error are those of the first operation that ended it since, its session the last one set, and its deliveries followed by its queue the creation message and then the follow-ups pushed while it ran, each with the session of that moment |
| `AgentTurns.CreateSize` | agent-sidecar/src/turn-store.ts:74-76 | The exact size after a creation: over twenty only by running turns, which cannot be evicted |
| `AgentTurns.GatedStoresAreBounded` | agent-sidecar/src/turn-store.ts:15-16 | If creations are gated by `canAcceptTurn`, at most five turns run and at most twenty are stored, over any run |
| `AgentTurns.PushedMessageIsAccepted` | agent-sidecar/src/turn-store.ts:203-214 | A message pushed to a running turn is really delivered or queued; to any other turn nothing changes |
| `Hostnames.RewriteJoinsTokens` | lib/types/tailscale.ts:324-329 | The chain of rewrites equals: maximal runs of lower-case letters and digits joined by single hyphens |
| `Hostnames.RewriteCleans` | lib/types/tailscale.ts:324-329 | Results are clean, clean texts are exactly the fixed points, and the rewrite is idempotent |
| `Hostnames.RewriteConcat` | lib/types/tailscale.ts:324-329 | Rewriting a hyphenated pair rewrites its halves |
| `Hostnames.FitIsLabel` | lib/types/tailscale.ts:330-346 | A name exists if and only if there is a letter or digit; it fits its budget and is a fixed point of the rewrite |
| `Hostnames.FitSpells` | lib/types/tailscale.ts:324-346 | A name within its budget is the lower-case runs of letters and digits of its parts, hyphenated; a longer one is the longest head of that which leaves room for a hyphen and the hash of the parts as they were given |
| `Hostnames.HostnameSpells` | lib/types/tailscale.ts:306-387 | The parts of each name, in their order: stack, service, environment, then discriminator and instance id if given |
| `Hostnames.LowerAt` | lib/types/tailscale.ts:324-326 | Letters are lowered in place, nothing else changes |
| `Hostnames.HostnamesAreLabels` | lib/types/tailscale.ts:306-387 | Every hostname is a valid label of at most 63 characters, every pool prefix one of at most 54 |
| `Hostnames.PrefixNamesInstanceIff` | lib/types/tailscale.ts:356-404 | The instance hostname is prefix, hyphen, cleaned id: within a label, if and only if the triple is at most 54 long; past the limit, if and only if it is longer, the id spells the hash of the whole name and the cut triple spells the prefix |
| `Hostnames.PrefixHeadsInstanceIff` | lib/types/tailscale.ts:356-404 | The prefix heads the instance hostname if and only if the triple is at most 54 long or begins with the prefix, cut and hash included |
| `Hostnames.HashHex` | lib/types/tailscale.ts:412-419 | The 32-bit FNV-1a loop computes the folded hash, padded |
| `Hostnames.FnvVectors` | lib/types/tailscale.ts:412-419 | The published test vectors of 32-bit FNV-1a |
| `Hostnames.HashShape` | lib/types/tailscale.ts:412-419 | Eight lower-case hexadecimal digits that spell the hash |
| `Hostnames.StreamNameShape` | lib/types/nats-subjects.ts:199-215 | The prefix, permitted characters only, at most 32 characters, and the last slice never cuts |
| `Hostnames.StreamCharsStay` | lib/types/nats-subjects.ts:199-205 | Permitted characters stay in place, all others go |
| `Hostnames.StreamNamesCollideIff` | lib/types/nats-subjects.ts:199-215 | When any two pairs share a name: spelled-out pairs iff their hyphen joins agree, hashed pairs iff both hash and readable rest agree, a spelled-out and a hashed one iff the first spells the second |
| `Hostnames.HashedNameIsShared` | lib/types/nats-subjects.ts:156-164 | Every hashed name is also the name of a different pair, one that is spelled out |
| `Hostnames.DistinctPairsCanCollide` | lib/types/nats-subjects.ts:156-164 | Two different pairs with the same stream name |

## Left out

- EntryOk: the creds printer writes secrets without blanks, one piece per line; a piece may begin with dashes.
- EveryServiceIsAccountedFor: issue paths are lists of segments here, while the code joins them with dots, so that the error about a badly named service `a.image` and the one about a missing image of a service `a` have one text as their path.
- ServiceKeyIsLostIff, ValueDecides, SkippedKeyIsLostIff: of a service that is skipped, its `depends_on` still takes part in the sort; when deleting that one key shows in the order of the other services has no condition here.
- OidRoundTripsIff: an arc list is given as numbers; `parseInt` of a dotted text is not modelled.
- IntegerRoundTripsIff: a negative number is encoded as its absolute value, as the code does.
- BodyArrivesIff: writing and reading the exported document as YAML between the two steps is not modelled.
- CreateTurn: that a random id is new is a precondition; the context that is appended to a message counts as part of it.
- SettingsFit, ImportIsExpressible, ImportTwice: leave aside mounts of the short syntax with an empty source or target, such as `:`, which the importer accepts and no long entry can express, and drafts with gaps in their order because a service was skipped.
- Next: a promise is a number into a list of replies; when a promise runs its continuation is not modelled.
- Regular expressions: the marker expressions, the duration expression and the hostname rewrites are written out as functions on texts, not interpreted by an engine. Lower-casing covers ASCII; characters stand for code units.
- Host-language conversions: how a number is written and a text read as a number are parameters of the Compose model. Durations are exact reals, without binary rounding.
- Object key order: keys keep insertion order; the host language's reordering of integer-like keys and inherited properties are not modelled.
- Message prose: an issue is its level, its path and the value it names.
- Network, DNS, HTTP, Docker and JetStream calls: their answers are arbitrary actions of the environment.
- Clocks: time is a number that may jump arbitrarily between steps of the token cache and a parameter elsewhere.
- completeTurn, cancelTurn, timeoutTurn: one-line calls of `TransitionTurn`; token usage, emitters and abort controllers of a turn are not modelled.
- ConnState, authFailed: two callbacks setting one flag.
- getDirectory: its cached promise has the shape of the token refresh; only its use for the nonce address is modelled, as a step that may fail.
- buildTailscaleTagSet, nullValue, boolean, ia5String, raw: one-branch facts.
- Signing, SHA-256, YAML parsing and the schema validation after an import are not part of this model.
