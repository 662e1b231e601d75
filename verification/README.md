# Verified model of the runner registry, the CLI text codecs and the scenario projection

The project models the three parts of the system that decide things by state or by text, and proves
what they promise. Check it with `dafny verify dfyconfig.toml`.

**Runner registry.** A handler updates the shared runner map under a lock and appends to the
journal after the lock is gone. `JournalProtocol` makes these two separate steps of a state machine
whose other steps are appends that fail, appends that stop half-way through a line, and restarts.
Over all its runs every entry is journalled, pending or lost; a replay never brings back a runner the
live map does not have, and misses a live one exactly when it has a pending or lost registration and
none in the journal; and when one runner's entries reach the journal in the order of its updates and
none of them is lost, replay brings back that runner's load (`JournalAgreement`, with the exact
condition for any order and any loss, and a two-registration run in which the order is swapped).
`JournalReplay` says what a replay depends on and proves a compaction; `JournalText` takes the
journal down to characters, down to cuts and torn lines (`JournalCodec` builds an encoding that meets
what is asked of one); `JournalFile` carries the protocol's theorems over to every run of a registry
with its file; `LeaseSafety` covers leases over whole runs and the age of replayed records;
`PoolSupply` covers the saturating counters. `RunnerRegistry` holds the classes: records updated in
place, the map of them, the journal file, and the methods that are proved to take exactly these
steps.

**CLI.** Merging configuration layers (`Lists`, `ConfigTypes`, `ConfigFields`, `ConfigMerge`) and
resolving them with a profile (`ConfigResolve`); the env-file editor against the env-file parser
(`EnvFile`) and the model parameters stored through both (`ModelParams`); shell quoting against a
tokenizer that follows sections 2.2.1, 2.2.2 and 2.3 of the POSIX.1-2017 Shell Command Language
(`ShellQuote`); the Kubernetes name sanitizer with the label rules of section 2.3.4 of RFC 1035 and
section 2.1 of RFC 1123 (`KubernetesName`); the endpoint URL builders (`EndpointUrl`).

**Scenario.** The depth-bounded requirement search over JSON against a reachability relation
(`RequirementSearch`), the task upsert and filler loops (`ScenarioTasks`, with the fields of their
tasks in `ScenarioFields`), the checks that the
evaluator runs on their result (`ScenarioExpectations`) and the action key normalizer (`ActionKey`).

`Text`, `Slugs` and `Json` hold what the others share.

## Where the code differs from what is said about it

- README.md:394 says that a restart keeps the visible runner set. One failed append is enough for it
  not to (`JournalProtocol.FailedAppendForgetsTheRunner`), and a torn line swallows the next entry
  although its own append succeeds (`JournalProtocol.TornLineForgetsTwoRunners`). It keeps the set if
  and only if every runner with a pending or lost registration has one in the journal
  (`JournalProtocol.RestartKeepsTheRunners`).
- Nothing ties the order of appends to the order of map updates, so a replay can bring back an older
  registration even though nothing was lost (`JournalAgreement.SwappedAppends`).
- When the monotonic clock cannot go back as far as an entry is old, the replayed record counts as
  just seen and gets a whole new lease (`LeaseSafety.UnrepresentableAgeIsForgotten`); exactly then, and
  if the entry is a second old or more, its runner can be offered too late (`LeaseSafety.OverdueIff`).
- The env-file editor recognises `key=` only at the very beginning of a line, the parser also with
  blanks around the key. A line that only the parser takes, after the last one that the editor
  takes, hides every new value (`EnvFile.AliasHidesNewValue`).
- The empty word is printed unquoted, so a command with an empty argument reads back without it
  (`ShellQuote.CommandRoundTrip`).
- The models builder does not recognise its own URL, so it cannot stand before another builder
  (`EndpointUrl.LastBuilderDecides`).
- A layer that names a profile twice makes the merge depend on how layers are grouped
  (`ConfigMerge.MergeAssociativeIff`).
- A status requested under two spellings with one normal form makes a synthesized projection miss
  its own derived minimum of tasks (`ScenarioExpectations.TwoSpellingsFallShort`).

## Model

| member | source | states |
|---|---|---|
| RunnerRegistry.RunnerRecord.constructor | crates/runner-registry/src/main.rs:47-56 | A new record has no running task and its whole concurrency free, seen at the given clock reading. |
| RunnerRegistry.RunnerRecord.Heartbeat | crates/runner-registry/src/main.rs:58-63 | A heartbeat changes the load and the two times of the record it is called on and keeps its registration. |
| RunnerRegistry.RunnerRecord.ReplayHeartbeat | crates/runner-registry/src/main.rs:361-366 | A replayed heartbeat gives the journalled load and a time computed back from the wall clock. |
| RunnerRegistry.Registry.Start | crates/runner-registry/src/main.rs:111-115 | A started registry's map is the replay of the journal file, or empty without a journal path. |
| RunnerRegistry.Registry.ReplayJournal | crates/runner-registry/src/main.rs:309-344 | The line loop gives the fold of the readable entries, every runner in a record of its own, counts the unreadable lines and reports the number of the first. |
| RunnerRegistry.Registry.ReplayLine | crates/runner-registry/src/main.rs:321-332 | One line applies its entry, is skipped or is blank, and nothing else in the map changes. |
| RunnerRegistry.Registry.ApplyJournalEntry | crates/runner-registry/src/main.rs:346-369 | Applying an entry to the map of records in place is the pure entry step on its view; a heartbeat of an unknown runner does nothing. |
| RunnerRegistry.Registry.Register | crates/runner-registry/src/main.rs:137-154 | The map half of a registration is the protocol's registration step. |
| RunnerRegistry.Registry.Receive | crates/runner-registry/src/main.rs:181-192 | The map half of a heartbeat is the protocol's heartbeat step; the runner is known exactly when it was in the map. |
| RunnerRegistry.Registry.AppendJournal | crates/runner-registry/src/main.rs:286-307 | However many characters the write gets through, the file afterwards stands for the protocol state after a complete, failed or torn append. |
| RunnerRegistry.Registry.Dispatch | crates/runner-registry/src/main.rs:209-225 | A request without runners draws from exactly the registrations of the runners seen at most their lease in seconds ago and with capacity, once each, in id order; one with runners keeps its own. |
| RunnerRegistry.Registry.ListStatus | crates/runner-registry/src/main.rs:168-179 | The status list has exactly one status for each runner, dispatchable or not, in id order. |
| RunnerRegistry.Registry.PoolSupplies | crates/runner-registry/src/main.rs:237-269 | The registry's pool supplies are the declarative summary of its map. |
| JournalFile.WriteRefines | crates/runner-registry/src/main.rs:294-300 | Every outcome of writing one line maps a represented protocol state to the represented next one. |
| JournalFile.StartRefines | crates/runner-registry/src/main.rs:111-115 | A start from a represented file gives the map of the protocol's start. |
| JournalFile.FileRunFollows | crates/runner-registry/src/main.rs:111-207 | Every run with the file, of map updates, writes that get through any number of characters and restarts, is a run of the protocol whose journal the text stands for. |
| JournalFile.FileReadsAsJournal | crates/runner-registry/src/main.rs:309-344 | After every such run the text reads as exactly the protocol's journal. |
| JournalFile.FileKeepsTheRunners | crates/runner-registry/src/main.rs:137-344 | The text gives back only live runners, and misses a live one exactly when it has a pending or lost registration and none in the text. |
| JournalFile.FileKeepsTheLoad | crates/runner-registry/src/main.rs:137-344 | If one runner's entries reach the file in update order and none is pending or lost, the text gives back its live load. |
| RunnerRegistry.OfferIsDispatchableStatuses | crates/runner-registry/src/main.rs:168-225 | At one instant the offered list is the status list filtered by its dispatchable flag. |
| RunnerRegistry.OfferedAreDispatchable | crates/runner-registry/src/main.rs:209-225 | A registration is offered if and only if it is that of a dispatchable runner. |
| RunnerRegistry.StatusesAreInOrder | crates/runner-registry/src/main.rs:168-179 | Each status is that of the runner at its place in the order. |
| RunnerRegistry.OfferedIsOffer | crates/runner-registry/src/main.rs:209-225 | The offer is fixed by ids, leases in seconds and capacities alone. |
| RunnerModel.EntriesOfDifferentRunnersCommute | crates/runner-registry/src/main.rs:346-369 | Entries of different runners can be applied in either order, times included. |
| RunnerModel.ApplyLoadAt | crates/runner-registry/src/main.rs:346-369 | An entry moves the load of its own runner as the load automaton says and leaves every other runner alone. |
| JournalReplay.ReplayIsLocal | crates/runner-registry/src/main.rs:309-369 | A runner's replayed load depends only on its own entries, for all journals and clocks. |
| JournalReplay.SameProjectionsSameLoads | crates/runner-registry/src/main.rs:309-369 | Two journals that interleave the same per-runner entries differently replay to the same loads. |
| JournalReplay.ReplayKeys | crates/runner-registry/src/main.rs:309-369 | The replayed runners are exactly those with a registration in the journal. |
| JournalReplay.DigestShape | crates/runner-registry/src/main.rs:346-369 | The digest of a runner's entries is its last registration and the last heartbeat after it. |
| JournalReplay.ReplayIsDigest | crates/runner-registry/src/main.rs:46-63 | Replay is determined per runner by that digest; without a later heartbeat no task runs and capacity is the maximum concurrency. |
| JournalReplay.ReplayRecordIsLocal | crates/runner-registry/src/main.rs:309-383 | Whatever the clocks do during a replay, a whole record, times included, depends on the runner's own entries and on the clock reading at the last of them. |
| JournalReplay.CompactedProjection | crates/runner-registry/src/main.rs:309-369 | A journal compacted in one pass holds exactly every runner's digest. |
| JournalReplay.ClockDecidesTheInstant | crates/runner-registry/src/main.rs:346-383 | The clock readings of a replay decide the instants of the records and nothing else. |
| JournalReplay.LoadIsLatest | crates/runner-registry/src/main.rs:346-369 | A runner's entries give its last registration with the numbers of its last entry. |
| JournalReplay.CompactionKeepsRecords | crates/runner-registry/src/main.rs:309-383 | For any clocks during the two replays, a compacted journal gives every runner the record that the journal gives it, up to the instant, which is that of the reading at its last compacted entry. |
| JournalReplay.CompactionKeepsLoads | crates/runner-registry/src/main.rs:309-383 | So loads and wall-clock times are equal for any clocks. |
| JournalReplay.CompactionReplays | crates/runner-registry/src/main.rs:309-369 | When both replays read the same clocks throughout, the whole maps are equal. |
| JournalProtocol.NextConserves | crates/runner-registry/src/main.rs:137-207 | Every step keeps: the entries found at the start and those of the updates since are, as a multiset, the entries journalled, pending and lost. |
| JournalProtocol.NextLive | crates/runner-registry/src/main.rs:137-207 | Every step keeps: the live loads are those of the entries found and updated. |
| JournalProtocol.Reachable | crates/runner-registry/src/main.rs:111-207 | Both hold in every reachable state, and a restart replays the journal. |
| JournalProtocol.RunnerSurvives | crates/runner-registry/src/main.rs:137-207 | In every reachable state a runner is replayed exactly when it has a registration in the journal, and live exactly when it has one there, pending or lost. |
| JournalProtocol.ReplayedRunnersAreLive | crates/runner-registry/src/main.rs:137-207 | In every reachable state, with failed and torn appends and restarts, the replayed runners are a subset of the live ones. |
| JournalProtocol.RestartKeepsTheRunners | crates/runner-registry/src/main.rs:111-207 | A restart keeps exactly the visible runners if and only if every runner with a pending or lost registration has one in the journal; so it does when nothing is pending or lost. |
| JournalProtocol.FailedAppendForgetsTheRunner | crates/runner-registry/src/main.rs:304-306 | A registration whose append fails is visible and forgotten by a restart. |
| JournalProtocol.TornLineForgetsTwoRunners | crates/runner-registry/src/main.rs:300-306 | A torn line and the complete one behind it are both forgotten. |
| JournalAgreement.AppendKeepsSequence | crates/runner-registry/src/main.rs:141-152 | Appending a runner's oldest pending entry, or another runner's entry, keeps that runner's journalled and pending sequence. |
| JournalAgreement.OrderedAppendsAgree | crates/runner-registry/src/main.rs:137-207 | In any run in which one runner's entries reach the journal in update order, with none of them pending or lost, replay gives that runner its live registration, running tasks and capacity, whatever other runners lost. |
| JournalAgreement.LiveLoadIsDigest | crates/runner-registry/src/main.rs:137-192 | In every reachable state a live load is that of the digest of the runner's updates. |
| JournalAgreement.AgreementIff | crates/runner-registry/src/main.rs:137-207 | For every run whatsoever, replay and live map agree on a runner if and only if its last journalled and last updated registrations are equal and its last entries carry the same numbers. |
| JournalAgreement.SwappedAppends | crates/runner-registry/src/main.rs:141-152 | Two registrations of one runner appended in the other order agree only if they are the same. |
| JournalText.RoundTrip | crates/runner-registry/src/main.rs:294-300 | Reading written entries gives them back. |
| JournalCodec.FaithfulCodecExists | crates/runner-registry/src/main.rs:294-300 | What the journal asks of the encoding of its lines can be met. |
| JournalText.ReadConcat | crates/runner-registry/src/main.rs:320-332 | Reading distributes over complete lines and whatever follows them. |
| JournalText.JunkIsSkipped | crates/runner-registry/src/main.rs:321-332 | Blank or undecodable lines inserted between any two lines change nothing. |
| JournalText.CutReadsPrefix | crates/runner-registry/src/main.rs:309-344 | Cutting the journal at any character reads back exactly the entries complete before the cut. |
| JournalText.ReplayOfFile | crates/runner-registry/src/main.rs:309-344 | The entries read from a file with a possibly torn end are those of the protocol's journal. |
| JournalText.TornWrite | crates/runner-registry/src/main.rs:294-300 | A write that stops inside a line tears the journal, and counts only if just the line feed is missing and nothing torn was before it. |
| JournalText.CompleteWrite | crates/runner-registry/src/main.rs:294-300 | A complete write adds its entry after a clean end and is lost after a torn one. |
| LeaseSafety.StatusMeaning | crates/runner-registry/src/main.rs:65-83 | A status is stale exactly when the record's age exceeds the registration's lease in seconds, full exactly without capacity, dispatchable exactly when neither; so is the dispatch filter; the age is rounded down. |
| LeaseSafety.UnixSecondsAreWhole | crates/runner-registry/src/main.rs:371-376 | Recorded times are whole seconds rounded down, and zero before 1970. |
| LeaseSafety.StatusAge | crates/runner-registry/src/main.rs:65-83 | The reported whole-second age never contradicts the flags and a lease holds up to and including its last instant. |
| LeaseSafety.OfferedRunnersHaveLeases | crates/runner-registry/src/main.rs:137-225 | Over every run, a runner with contact since the start is offered if and only if its latest contact is at most its registration's lease in seconds ago and left capacity; any other one only if its replayed record is dispatchable. |
| LeaseSafety.ReplayedRecordTime | crates/runner-registry/src/main.rs:346-369 | A replayed record takes its time from the last entry of its runner. |
| LeaseSafety.ReplayedAgeIsWithinASecond | crates/runner-registry/src/main.rs:371-383 | With a wall clock that does not go back, a replayed age is less than a second off the true one if and only if the clock can represent it or the entry is less than a second old. |
| LeaseSafety.ReplayedLease | crates/runner-registry/src/main.rs:65-68 | A true age up to the lease less a second with capacity always implies dispatchable after replay; in those cases dispatchable also implies a true age below the lease plus a second. |
| LeaseSafety.OverdueIff | crates/runner-registry/src/main.rs:65-68 | In all other cases, and only in them, a replayed runner with capacity is offered at some time although its contact is a lease and a second old. |
| LeaseSafety.UnrepresentableAgeIsForgotten | crates/runner-registry/src/main.rs:378-383 | If the clock cannot represent the age, the record is dispatchable for a whole lease from the replay. |
| PoolSupply.PoolKeyIsThePool | crates/runner-registry/src/main.rs:271-284 | The key is the one pool that the runner belongs to: by its pool label, else its lane label, else its first role, else the default. |
| PoolSupply.BeforeIsLexicographic | crates/runner-registry/src/main.rs:239-269 | Pools are listed in the order of the first differing character. |
| PoolSupply.Aggregate | crates/runner-registry/src/main.rs:237-269 | Whatever the order of the runners, each counter of each pool is the sum over the runners whose labels and roles put them in it, cut off at 4294967295. |
| PoolSupply.RunnerPoolSupplies | crates/runner-registry/src/main.rs:237-269 | The result has one supply for each pool that some runner's labels and roles name and no other, sorted by key, with those counters. |
| PoolSupply.SummaryIsUnique | crates/runner-registry/src/main.rs:237-269 | There is only one such summary of a map at an instant. |
| PoolSupply.TotalIsCount | crates/runner-registry/src/main.rs:254-260 | The unbounded sums of the runner counters are sizes of sets of runners. |
| PoolSupply.EveryRunnerIsCountedOnce | crates/runner-registry/src/main.rs:237-269 | Registered counts add up to the number of runners if and only if no pool is too large for its counter. |
| PoolSupply.DispatchableAndStale | crates/runner-registry/src/main.rs:253-260 | Dispatchable plus stale counts are at most the registered count, exactly when the pool or the sum of the two fits a counter or one of them is zero. |
| Lists.AppendUniqueInPlace | crates/cli/src/main.rs:4642-4648 | The append loop gives the duplicate-free append. |
| Lists.AppendUniqueAssociative | crates/cli/src/main.rs:4642-4648 | Duplicate-free append is associative for all lists. |
| Lists.AppendUniqueIdempotent | crates/cli/src/main.rs:4642-4648 | Appending a list again changes nothing. |
| Lists.AppendUniqueContents | crates/cli/src/main.rs:4642-4648 | The result starts with the old list, has exactly the elements of both, and no new duplicates. |
| ConfigFields.FieldLayered | crates/cli/src/main.rs:4486-4640 | A merge decides every optional field and every lane's policy by itself: the overlay's value wins if present. |
| ConfigFields.ListLayered | crates/cli/src/main.rs:4508-4618 | A merge appends the overlay's new elements to every list. |
| ConfigFields.ToolFieldLayered | crates/cli/src/main.rs:4537-4561 | A merge decides every field and list of the tool routing by itself. |
| ConfigMerge.SettingsBand | crates/cli/src/main.rs:4486-4640 | Merging all settings groups is associative and idempotent. |
| ConfigMerge.MergeProfileConfigs | crates/cli/src/main.rs:4457-4468 | The profile loop is the keyed upsert. |
| ConfigMerge.UpsertNames | crates/cli/src/main.rs:4457-4468 | The upsert keeps names in first-appearance order without adding duplicates. |
| ConfigMerge.UpsertAssociative | crates/cli/src/main.rs:4457-4484 | The keyed upsert is associative when the middle layer names no profile twice. |
| ConfigMerge.UpsertIdempotent | crates/cli/src/main.rs:4457-4484 | Upserting the same profiles again changes nothing, repeated names included. |
| ConfigMerge.MergeAssociative | crates/cli/src/main.rs:4418-4431 | Merging configurations is associative when the middle one names no profile twice. |
| ConfigMerge.MergeIdempotent | crates/cli/src/main.rs:4418-4431 | Merging the same overlay twice equals merging it once, for every overlay. |
| ConfigMerge.RepeatedNameBreaksAssociativity | crates/cli/src/main.rs:4457-4484 | A repeated name in the middle layer and another kind for it in the overlay tell the groupings apart. |
| ConfigMerge.MergeAssociativeIff | crates/cli/src/main.rs:4418-4484 | Merging is associative around a middle layer if and only if that layer names no profile twice. |
| ConfigResolve.ResolvedConfig.Merge | crates/cli/src/main.rs:4418-4431 | Merging in place gives the merged configuration. |
| ConfigResolve.ResolvedConfig.ApplyProfile | crates/cli/src/main.rs:4433-4455 | A defined profile is applied over the settings and becomes the active one; an undefined one changes nothing. |
| ConfigResolve.InsertPolicies | crates/cli/src/main.rs:4574-4582 | Lane policies of the overlay override those of the base, in any order of insertion. |
| ConfigResolve.MergeRunnerCapacity | crates/cli/src/main.rs:4574-4582 | Inserting lane policies one by one gives the merged capacity settings. |
| ConfigResolve.LoadResolvedConfig | crates/cli/src/main.rs:4375-4416 | Layers are merged defaults, project, user, then the selected profile; it fails exactly when that is not defined. |
| ConfigResolve.ProfileOfLayers | crates/cli/src/main.rs:4457-4484 | The profile found after merging is the merge of the layers' own profiles of that name. |
| ConfigResolve.SelectionPrecedence | crates/cli/src/main.rs:4402-4410 | The selected profile is the first given of those five. |
| ConfigResolve.Precedence | crates/cli/src/main.rs:4375-4416 | The applied profile is the first given of command line, environment, and the user's, project's and built-in active profile, blank names of the first two not counting; every optional field and lane policy is the first present of user, project and built-in profile of that name, then user, project and built-in top level. |
| ConfigResolve.ListPrecedence | crates/cli/src/main.rs:4375-4416 | Every list is the built-in one with the new elements of project, user and selected profile appended in turn. |
| ConfigResolve.ToolPrecedence | crates/cli/src/main.rs:4418-4455 | Tool routing comes from user, project and built-in layer alone, whatever the selected profile says. |
| ConfigResolve.ApplyTwice | crates/cli/src/main.rs:4433-4455 | Applying a profile twice equals once, and it changes neither tool routing nor the profile list. |
| EnvFile.ReplaceEnvLine | crates/cli/src/main.rs:8796-8814 | The editor loop rewrites every line that starts with the key and an equals sign, keeps every other line at its place, and adds one assignment at the end when there was none. |
| EnvFile.ParsedLine | crates/cli/src/main.rs:9653-9676 | The parser takes a line exactly when, trimmed, it is a key without an equals sign, the first equals sign and a value, and does not begin with #; the value counts up to its first space and #. |
| EnvFile.LastMentionWins | crates/cli/src/main.rs:9653-9668 | The parsed value of a key is that of the last line the parser takes for it. |
| EnvFile.CleanedIsIdentity | crates/cli/src/main.rs:9670-9676 | The parser returns a value unchanged if and only if it is trimmed and has no comment. |
| EnvFile.SetThenParse | crates/cli/src/main.rs:8796-8814 | Parsing after an edit is the old map with only the key mapped to the cleaned value, or the old map itself, decided by the last line for the key. |
| EnvFile.SetTakesEffect | crates/cli/src/main.rs:8796-8814 | Exactly when an edit reads back as the old map with only that key changed to the value. |
| EnvFile.SetKeepsSettles | crates/cli/src/main.rs:8796-8814 | Editing one key does not change whether an edit of another takes effect. |
| EnvFile.AliasHidesNewValue | crates/cli/src/main.rs:9653-9668 | For every key, an indented line after the exact one hides every new value. |
| ModelParams.ApplyModelParamValues | crates/cli/src/main.rs:8621-8642 | The loop writes the seven parameters one after the other. |
| ModelParams.NamedParameters | crates/cli/src/main.rs:8621-8642 | Which of the seven parameters goes under which key. |
| ModelParams.FieldRoundTrip | crates/cli/src/main.rs:8644-8660 | Exactly when one parameter survives writing all seven and reading. |
| ModelParams.RoundTrip | crates/cli/src/main.rs:8621-8660 | Exactly when reading gives back all parameters that were written. |
| ModelParams.WrittenKey | crates/cli/src/main.rs:8621-8642 | A written key holds its cleaned value if its line takes effect and its old value otherwise. |
| ModelParams.ReadBack | crates/cli/src/main.rs:8761-8768 | A settled parameter reads back as itself if and only if it is absent, or non-empty, trimmed and comment-free. |
| ModelParams.OtherKeysKeepTheirValues | crates/cli/src/main.rs:8621-8642 | Keys outside the seven keep their parsed values. |
| ShellQuote.ScanShellQuote | crates/cli/src/main.rs:11398-11407 | The shell reads a quoted word as the word, whatever characters it has and whatever stands around it. |
| ShellQuote.UnquotedIff | crates/cli/src/main.rs:11398-11407 | A word is printed unquoted if and only if it has only ASCII letters, digits and six more characters. |
| ShellQuote.CommandWords | crates/cli/src/main.rs:9327-9332 | The shell reads a printed command as its non-empty words. |
| ShellQuote.CommandRoundTrip | crates/cli/src/main.rs:9327-9332 | It reads back as exactly program and arguments if and only if none is empty. |
| KubernetesName.K8sName | crates/cli/src/main.rs:11110-11131 | The shrinking loop terminates and gives the words of the text joined by single dashes, cut to 63. |
| KubernetesName.SanitizedIsLabel | crates/cli/src/main.rs:11110-11131 | Every text becomes a non-empty label of at most 63 characters without outer or double dashes. |
| KubernetesName.LabelsAreTheFixpoints | crates/cli/src/main.rs:11110-11131 | The sanitizer leaves exactly the labels unchanged, so it is idempotent. |
| KubernetesName.DashedCharacters | crates/cli/src/main.rs:11110-11121 | Letters and digits are kept in lower case, every other character separates words. |
| KubernetesName.PlainNameIsLowered | crates/cli/src/main.rs:11110-11131 | A text of up to 63 letters and digits keeps all of them in lower case. |
| KubernetesName.WithoutWordsIsFallback | crates/cli/src/main.rs:11126-11128 | A text without letters and digits gets the fallback name. |
| EndpointUrl.BuildFromHost | crates/cli/src/main.rs:8377-8441 | The three builders put their path after one shared base of the endpoint. |
| EndpointUrl.HostOfBuilt | crates/cli/src/main.rs:8377-8441 | A chat or embeddings URL has the base it was built from; a models URL is taken as a base of its own. |
| EndpointUrl.LastBuilderDecides | crates/cli/src/main.rs:8377-8441 | After any chain of builders the last one alone decides if and only if the chain has no models builder. |
| EndpointUrl.KnownShapes | crates/cli/src/main.rs:8377-8441 | A plain host with or without one of the known ends and any number of slashes gives the host followed by the builder's path, spelled out. |
| EndpointUrl.KnownTags | crates/cli/src/main.rs:8443-8450 | The tags builder does the same for all ends but the embeddings one. |
| EndpointUrl.TagsOfChat | crates/cli/src/main.rs:8443-8450 | The tags builder agrees on an endpoint and its chat URL except for the embeddings shape. |
| Json.ValueAtPathIsTarget | crates/cli/src/scenario.rs:5216-5222 | The accessor gives a value if and only if a chain of objects leads to it, one field for each segment of the path. |
| Json.StringAtPathIsText | crates/cli/src/scenario.rs:5198-5207 | The text at a path is the string there, or the unsigned number there in decimal digits. |
| RequirementSearch.SearchFindsTheFirst | crates/cli/src/scenario.rs:4221-4288 | The search returns the first wanted text in depth-first order. |
| RequirementSearch.TextsAreReachable | crates/cli/src/scenario.rs:4221-4288 | The texts in that order are exactly those reachable within the hops. |
| RequirementSearch.SearchIsReachability | crates/cli/src/scenario.rs:4202-4288 | It finds a text if and only if a wanted one is reachable within three hops along whole paths, and finds only such texts. |
| ScenarioTasks.StoreTask | crates/cli/src/scenario.rs:4616-4645 | Storing a result keeps the index map in agreement with the list and the tasks as the reference says. |
| ScenarioTasks.WorkerTasks | crates/cli/src/scenario.rs:4616-4645 | Worker-derived tasks have distinct ids in first-appearance order, each with its last result. |
| ScenarioTasks.WorkerTasksAreDetermined | crates/cli/src/scenario.rs:4616-4645 | That reference determines the tasks. |
| ScenarioTasks.FillStatus | crates/cli/src/scenario.rs:4646-4670 | The filler loop adds just the missing tasks of one status. |
| ScenarioTasks.TasksFromScenario | crates/cli/src/scenario.rs:4616-4670 | The result is the worker-derived tasks followed by the fillers of each requested status in turn. |
| ScenarioTasks.FilledCount | crates/cli/src/scenario.rs:4646-4670 | After filling, each normal form counts the larger of the worker-derived tasks and the largest request under any spelling. |
| ScenarioFields.NormalizedToken | crates/cli/src/scenario.rs:5407-5409 | A status is compared trimmed, in lower case and with underscores for dashes. |
| ScenarioFields.StatusOfResult | crates/cli/src/scenario.rs:4672-4684 | The task status for every normal form of a result's status. |
| ScenarioFields.TaskOfResult | crates/cli/src/scenario.rs:4634-4643 | What every field of a worker-derived task holds, from the result and the action alone. |
| ScenarioFields.IdOfResult | crates/cli/src/scenario.rs:4625-4633 | A task's id is its result's, else its action's unless blank, else numbered. |
| ScenarioFields.FillersAre | crates/cli/src/scenario.rs:4658-4667 | Fillers are numbered on from the tasks that are there, with the purpose and role of their status. |
| ScenarioFields.CountIsPositions | crates/cli/src/scenario.rs:4654-4657 | The count is the number of tasks whose status has the normal form. |
| ScenarioFields.CheckPasses | crates/cli/src/scenario.rs:2087-2109 | There is one check for each expected status, and it passes if and only if enough tasks have it. |
| ScenarioFields.ExpectedCounts | crates/cli/src/scenario.rs:4464-4478 | Blank expectations get exactly the counts that are unsigned numbers. |
| ScenarioExpectations.TaskExpectation.Normalize | crates/cli/src/scenario.rs:4464-4494 | Blank expectations become the unsigned task counts and their machine-word sum; others stay. |
| ScenarioExpectations.StatusChecksPass | crates/cli/src/scenario.rs:2087-2109 | The synthesized projection passes every task status check, two spellings included. |
| ScenarioExpectations.FilledLength | crates/cli/src/scenario.rs:4646-4670 | Tasks after filling plus requests that needed no filler are worker-derived tasks plus requests. |
| ScenarioExpectations.MinTasksCheck | crates/cli/src/scenario.rs:2067-2085 | The derived minimum is met if and only if the requests that needed no filler are at most the worker-derived tasks. |
| ScenarioExpectations.SynthesizedProjectionPasses | crates/cli/src/scenario.rs:4450-4587 | With distinct normal forms the synthesized projection passes both kinds of task checks that blank expectations give rise to, one for each status and the minimum. |
| ScenarioExpectations.TwoSpellingsFallShort | crates/cli/src/scenario.rs:4450-4587 | Two spellings of one status make it miss its derived minimum exactly when both request a task. |
| ActionKey.NormalizeActionKey | crates/cli/src/scenario.rs:3699-3715 | The character loop with its separator flag gives the runs of letters and digits joined by underscores. |
| ActionKey.KeyShape | crates/cli/src/scenario.rs:3699-3715 | A key has lower-case letters, digits and single inner underscores only. |
| ActionKey.KeysAreTheFixpoints | crates/cli/src/scenario.rs:3699-3715 | The normalizer leaves exactly such texts unchanged. |
| ActionKey.LoweredAppends | crates/cli/src/scenario.rs:3699-3715 | Every character is replaced by its lower-case form. |
| ActionKey.AsciiWordIsLowered | crates/cli/src/scenario.rs:3699-3715 | With ASCII lower-casing a word of letters and digits keeps all of them in lower case. |
| ActionKey.KeyIsNormal | crates/cli/src/scenario.rs:3699-3715 | Normalizing a key again does not change it. |

## Left out

- HTTP routing, files, processes, prompts and command-line parsing: results of input and output are parameters, such as how much of a line a write got through, the clock readings and the layers read.
- `RunnerDispatchDecision::choose` and `RunnerScalingDecision::recommend`: defined in a crate that is not part of this model.
- The JSON encoding of journal entries: it is a pair of functions of which `JournalText.IsFaithful` states what is used: decoding inverts encoding, an encoded entry has no line break and is not blank, none of its proper beginnings decodes, and beginnings glued on one line do not decode. `JournalCodec.FaithfulCodecExists` builds one. Reading fails on invalid UTF-8 in the source; the text here is cut between characters only.
- A journal file that another process changes or truncates while the registry runs is not modelled.
- LeaseSafety.ReplayedAgeIsWithinASecond: takes a wall clock that does not go back, and times after 1970, as given; otherwise wall-clock times do not tell a true age.
- JournalFile.FileRunFollows: starts from a file of complete lines, readable or not, and torn lines of the registry's own; a file whose last line is torn text of another origin is not covered.
- Registrations keep only the fields the registry looks at; lease durations are unbounded, task and capacity counters are 32 bits wide.
- Optional settings are text, whatever their type in the source, and the settings groups that a configuration and a profile share are one `Settings` value. The nested groups are values that the resolving object replaces, because nothing else refers to them.
- Reading environment variables and explicit flags over the resolved configuration, the fifth layer in docs/operations/configuration.md:15-40.
- EnvFile.SetTakesEffect: keys are those that the parser returns unchanged (trimmed, without '=' or line feeds, not beginning with '#'); values have no line feed.
- ModelParams.RoundTrip: the key prefix has to make such keys, as the callers' constants do.
- ShellQuote.CommandRoundTrip: the tokenizer covers quoting and token recognition of simple words; it refuses operators, double quotes and expansions, which printed commands never have outside single quotes.
- ActionKey.KeyShape: lower-casing is a parameter with two stated properties, because Unicode case tables are not modelled.
- ScenarioTasks.TasksFromScenario: tasks are records with the fields the loop writes, not JSON objects.
- ScenarioExpectations.MinTasksCheck: is stated for sums that fit the machine word; `ScenarioExpectations.TaskExpectation.Normalize` models the wrap-around of a release build, a debug build stops instead.
- The expectation fields about events, artifacts and states, the other evaluator checks, preset tables, release plans and manifests: one-branch facts or constants.
