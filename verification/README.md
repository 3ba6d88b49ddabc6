# Verified model of the soundcork server

This project models the stateful parts of the Go server that stands in for the Bose cloud of SoundTouch
speakers, and proves what they keep over whole runs. `dafny verify dfyconfig.toml` checks all of it.

| file | what it models |
|---|---|
| `Common.dfy`, `Numerals.dfy` | shared types; `strconv.Itoa` and `strconv.Atoi`, with the 64-bit range |
| `Records.dfy`, `Sources.dfy` | the records, the typed form of their XML files, source ids and source lookup |
| `Recency.dfy`, `Recents.dfy`, `Presets.dfy` | the bounded move-to-front list, its slice surgery and ids; the preset slots |
| `Account.dfy`, `Effects.dfy`, `DataStore.dfy`, `Marge.dfy` | one account's files under any sequence of requests; what one request does, field by field; the store class and the two operations on it |
| `ConditionalGet.dfy` | entity tags, interleaved with writes step by step |
| `Registry.dfy`, `Passes.dfy` | device directories, the deduplicating listing and the discovery loop; what passes of that loop keep and delete |
| `Setup.dfy`, `ProxyCodec.dfy` | speaker migration under command failures; wrapping and unwrapping of proxy URLs |
| `Ico.dfy` | the ICO writer and the reader that gives its output a meaning |
| `Base64.dfy`, `Templates.dfy` | the two text transformations of BMX |
| `Events.dfy` | the per-device event log, on arrays |

Conventions. A file is missing, malformed, or a list of the records handed to the XML encoder; a write
replaces it as a whole or fails and changes nothing. Clocks, decoded request bodies, disk outcomes,
command outcomes, discovery results and the answers of speakers are parameters, so every theorem is about
all of them. `Account.Run`, `ConditionalGet.Run`, `Setup.RunCalls`, `DeviceRegistry.IsRun` and
`DeviceRegistry.IsPass` describe whole runs. Methods follow the source's loops and updates in place; their
contracts tie them to the functions that the theorems are about.

Results that differ from what one would expect of the code:

- A recents request that hits an entry other than the last one is answered with the id, type, location and
  name of the entry that followed it, because the response is built through a pointer into the shifted
  array (`Account.AnswerNamesFrontIff`).
- In `marge.go:371` the entry is read in the same expression whose inner `append` shifts the array. Go
  leaves the order open; the model copies the entry out first. `RecentList.ShiftBeforeReadDiffers` says
  exactly when the other order would give another list.
- An issued recents id wraps around to the smallest integer when the largest id is the largest integer
  (`RecentList.IssuedIdFresh` gives the exact condition).
- The presets tag does not cover the sources the presets body shows (`ConditionalGet.SourcesGoUnnoticed`),
  the account tag not the device records the account body shows (`ConditionalGet.DevicesGoUnnoticed`). A
  rewrite of a covered file is hidden exactly when it falls into the millisecond of the tag handed out
  before (`ConditionalGet.SameMillisecondUnnoticed`, with a witness in `ConditionalGet.HiddenChange`). The
  answers to preset and recents requests carry a tag from before their own write; it never matches again
  (`ConditionalGet.TagOfChangeNeverMatches`).
- A discovery pass can delete what it has stored for an earlier speaker. The listing is read in the order of
  the directory names, so the registry and the discovered speakers determine the pass
  (`DiscoveryPasses.PassIsDetermined`), and it leaves every speaker stored exactly when in no turn the first
  carrier of the speaker's serial, among the first records of their keys, has an earlier speaker's name
  (`DiscoveryPasses.SortedStoredIff`). Only a record in a directory that sorts before the speaker's own can
  cost it its entry (`DiscoveryPasses.SortedUnthreatenedAreStored`); a single one does, also when every
  directory bears its record's key, namely from an account that sorts before `default`
  (`DiscoveryPasses.OneRecordCostsSpeaker`). In states the server builds itself there is no such record, and
  the clean-up of entries known under another name never fires, so an entry stored under a host address
  stays when the serial appears (`DiscoveryPasses.HostEntryStays`).
- A backup is overwritten by a call exactly when the existence test does not find it, a copy takes effect
  and the config differs from it (`Setup.BackupKeptIff`); `Setup.BackupIsForever` carries that over whole
  runs. A first migration that takes no backup but writes its config loses the factory config: whatever
  is backed up later was written by a migration (`Setup.FirstCallDecides`).
- Go and Python substitute the two placeholders in opposite orders; for base URLs without braces they agree
  on every template exactly when the base URL is no part of the text `MEDIA_SERVER`
  (`Templates.OrdersAgreeIff`).

## Model

| member | source | states |
|---|---|---|
| `Account.RecentsAreTenMostRecent` | soundcork-go/internal/marge/marge.go:320-406 | from any list of at most ten different keys, read as the requests that left it, after every sequence of requests, accepted or not, the stored recents are the latest requests for the ten keys requested last, most recent first, each with the time of its latest request |
| `Recency.UnboundedBackwards` | soundcork-go/internal/marge/marge.go:359-402 | a list without a key twice is the recency order of its own entries requested from last to first |
| `Recency.UnboundedIsRecencyOrder` | soundcork-go/internal/marge/marge.go:359-402 | the unbounded move-to-front list holds each requested key once, as its latest request, later requests first |
| `Recency.TouchKeepsPrefix` | soundcork-go/internal/marge/marge.go:359-402 | through hits, misses and repeated requests for evicted keys, the bounded list stays the ten-prefix of the unbounded one |
| `RecentList.AddIsTouch` | soundcork-go/internal/marge/marge.go:359-402 | seen through keys and times, an accepted request is one touch of the bounded list |
| `RecentList.MoveSlotToFront` | soundcork-go/internal/marge/marge.go:371 | the in-place slice surgery yields entry i followed by all others in order, and leaves the old array shifted |
| `RecentList.MoveToFrontPermutes` | soundcork-go/internal/marge/marge.go:362-374 | the surgery keeps length and multiset and the relative order of the other entries |
| `RecentList.ShiftBeforeReadDiffers` | soundcork-go/internal/marge/marge.go:371 | reading the slot after the shift gives the same list exactly when the hit is the last entry or equals its successor |
| `RecentList.IssuedIdFresh` | soundcork-go/internal/marge/marge.go:376-385 | the issued id exceeds every parsable id exactly when the maximum is below the integer limit, and then differs from every id string present, parsable or not |
| `RecentList.AddMovesMaxId` | soundcork-go/internal/marge/marge.go:362-402 | the maximum id stays on a hit and grows by one on a miss, eviction included |
| `Account.IdsOverRuns` | soundcork-go/internal/marge/marge.go:320-406 | over every run from any list, issued ids are consecutive from the starting maximum, distinct ids and keys stay distinct, and after the first issue the list never exceeds ten |
| `Account.AnswerNamesFrontIff` | soundcork-go/internal/marge/marge.go:408-419 | with distinct ids, the response names the entry now at the front exactly when the request missed or hit the last entry |
| `Marge.TouchRecents` | soundcork-go/internal/marge/marge.go:359-402 | search, surgery, id computation and truncation on the loaded array produce the specified list and the entry the response will describe |
| `Marge.ComputeMaxId` | soundcork-go/internal/marge/marge.go:377-382 | the loop computes the largest positive id that parses |
| `Marge.AddRecent` | soundcork-go/internal/marge/marge.go:320-420 | load, change and save have exactly the request's effect on the account, errors included, and touch no other account |
| `Marge.UpdatePreset` | soundcork-go/internal/marge/marge.go:248-318 | the same for presets; a number below 1 panics before anything is saved |
| `RequestEffects.PresetStored` | soundcork-go/internal/marge/marge.go:281-304 | the record in the slot of an accepted request has the number as id, name, location, type and art of the body, both times from the clock, and type and account of the named source |
| `RequestEffects.OtherSlots` | soundcork-go/internal/marge/marge.go:299-306 | the other slots keep their records, marked presetable, gaps are blank, the length is as needed, and no other file changes |
| `RequestEffects.PresetAnswered` | soundcork-go/internal/marge/marge.go:308-317 | the answer shows the request's fields and the source it named |
| `RequestEffects.PresetRefusedIff` | soundcork-go/internal/marge/marge.go:248-306 | refused exactly when malformed, without such a source, or when the disk refuses; a number below 1 panics; neither changes anything |
| `RequestEffects.NewRecentStored` | soundcork-go/internal/marge/marge.go:351-402 | for content not in the list the first record is the request's, with the time it gives or else the clock's, and the others follow, cut to ten |
| `RequestEffects.KnownRecentStored` | soundcork-go/internal/marge/marge.go:359-374 | for content in the list its first record comes to the front with the new time and nothing else changed, the others keep their order |
| `RequestEffects.RecentAnswered` | soundcork-go/internal/marge/marge.go:408-419 | the answer shows that time and the source, and for new content the request's fields and the stored id |
| `RequestEffects.RecentRefusedIff` | soundcork-go/internal/marge/marge.go:320-406 | refused exactly when malformed, without such a source, or when the disk refuses, and then without effect; no other file ever changes |
| `RequestEffects.SourcesStored` | soundcork-go/internal/datastore/datastore.go:545-585 | every field of every saved source is written, and a list with ids loads as it was |
| `Account.PresetsAreLastWrites` | soundcork-go/internal/marge/marge.go:280-304 | after every sequence of requests the stored list is the slot-to-last-write map: length, written slots, normalised untouched slots, blank gaps |
| `Account.IdsMatchSlotsForever` | soundcork-go/internal/marge/marge.go:280-304 | if every entry with an id sat in its slot at the start, it always does |
| `Account.RequestsCommute` | soundcork-go/internal/marge/marge.go:248-406 | preset requests for different slots commute whatever becomes of each, and commute with recents requests |
| `PresetSlots.StoreSlotShape` | soundcork-go/internal/datastore/datastore.go:222-317 | load, update and save on the stored records: only the named slot changes beyond normalisation, gaps are blank |
| `Account.RecentsListedUnderRequestedSource` | soundcork-go/internal/marge/marge.go:164-171 | with distinct (type, account) pairs every recent requested in the run is listed under the source that the id of its latest request resolved to, although that id is not stored, whatever recents there were before |
| `Account.AllRecentsListedUnderRequestedSource` | soundcork-go/internal/marge/marge.go:164-171 | from an empty list that holds for every recent |
| `Account.PresetsListedUnderRequestedSource` | soundcork-go/internal/marge/marge.go:119-127 | the same for every written preset slot |
| `Sources.ListedUnderItsSource` | soundcork-go/internal/marge/marge.go:119-127 | a stored item is listed under its source exactly when no earlier source has the same pair |
| `Sources.ResolveForListing` | soundcork-go/internal/marge/marge.go:164-171 | the listing loop returns the first source that has the item's source id or its type and account, none only if no source has |
| `Sources.FindSource` | soundcork-go/internal/marge/marge.go:269-278 | the request loop returns the first source with the id, or none |
| `Sources.DecodeSources` | soundcork-go/internal/datastore/datastore.go:524-540 | the loop with its running counter gives record i the id its blank predecessors determine |
| `Sources.LoadedIds` | soundcork-go/internal/datastore/datastore.go:524-540 | no loaded id is empty and no two generated ids coincide |
| `Sources.LoadedFields` | soundcork-go/internal/datastore/datastore.go:524-540 | a loaded source has the fields of its record, and the record's id if there is one |
| `Sources.FirstGenerated` | soundcork-go/internal/datastore/datastore.go:524-540 | the first record without an id gets 100001 |
| `Sources.NextGenerated` | soundcork-go/internal/datastore/datastore.go:524-540 | each further one gets the next number |
| `Sources.UniqueIdsIff` | soundcork-go/internal/datastore/datastore.go:524-540 | all loaded ids are unique exactly when the explicit ids are distinct and none lies in the generated range |
| `Sources.AppendKeepsIds` | soundcork-go/internal/datastore/datastore.go:524-540 | appending records never changes the ids of earlier ones |
| `Sources.LoadSaveLoad` | soundcork-go/internal/datastore/datastore.go:500-585 | saving a loaded source list and loading it again returns it |
| `DataStore.DataStore.GetPresets` | soundcork-go/internal/datastore/datastore.go:222-269 | loading fails exactly for missing or malformed files and otherwise returns the decoded records in order |
| `DataStore.DataStore.SavePresets` | soundcork-go/internal/datastore/datastore.go:271-317 | saving replaces exactly this account's presets, or nothing |
| `DataStore.DataStore.GetRecents` | soundcork-go/internal/datastore/datastore.go:319-366 | as for presets |
| `DataStore.DataStore.SaveRecents` | soundcork-go/internal/datastore/datastore.go:368-417 | as for presets |
| `DataStore.DataStore.GetConfiguredSources` | soundcork-go/internal/datastore/datastore.go:500-543 | loading fails exactly for missing or malformed files and otherwise returns the sources with their loaded ids |
| `DataStore.DataStore.SaveConfiguredSources` | soundcork-go/internal/datastore/datastore.go:545-585 | saving replaces exactly this account's sources, or nothing |
| `Records.InfoRoundTrip` | soundcork-go/internal/datastore/datastore.go:50-100 | device info survives save and load exactly when its product code has a space; otherwise one trip reaches the fixed point |
| `Records.SplitProductCode` | soundcork-go/internal/datastore/datastore.go:450-460 | the split at the first space rejoins to the code, or yields the whole code |
| `Records.ParseDeviceInfo` | soundcork-go/internal/datastore/datastore.go:78-99 | firmware and serial numbers come from the last component of their category, the address from the last "SCM" network, each empty without one; the rest from the element |
| `Records.LoadedInfoMeans` | soundcork-go/internal/datastore/datastore.go:78-99 | that description fits exactly one record, the one loading gives |
| `Records.RecentsRoundTrip` | soundcork-go/internal/datastore/datastore.go:319-417 | load after save erases the source id, fills only a missing isPresetable, and is idempotent |
| `Records.PresetsRoundTrip` | soundcork-go/internal/datastore/datastore.go:222-317 | load after save erases the source id, sets isPresetable, and is idempotent |
| `ConditionalGet.NotModifiedIsTrue` | soundcork-go/soundcork-go/handlers_marge.go:34-50 | in every interleaving in which writes to presets, sources and recents are a millisecond apart, a 304 means that at the moment the request arrived every covered file was stored as the client's body shows it, although tags and data are read in separate steps; so was any other file whose own time stamp had not passed the tag, and any device record, written at any time, whose stamp was before it |
| `ConditionalGet.TagOfChangeNeverMatches` | soundcork-go/soundcork-go/handlers_marge.go:104-152 | the tag a preset or recents request hands out, read before its own write, is never answered 304 by a handler that covers the file, once that answer was sent |
| `ConditionalGet.MatchingTagIsTrue` | soundcork-go/soundcork-go/handlers_marge.go:86-102 | a tag that still matches has not been passed by any covered file since the body was read |
| `ConditionalGet.StepKeepsInv` | soundcork-go/soundcork-go/handlers_marge.go:34-50 | every step of every request keeps: what a sent or growing body saw is still stored, or its file's tag has passed the body's |
| `ConditionalGet.QuietGet` | soundcork-go/soundcork-go/handlers_marge.go:34-41 | an undisturbed request is answered 304 exactly when its header prints the current tag |
| `ConditionalGet.RewriteUnnoticedIff` | soundcork-go/soundcork-go/handlers_marge.go:86-102 | after a rewrite the old tag is answered 304 exactly when the rewrite left the handler's tag as it was |
| `ConditionalGet.SourcesGoUnnoticed` | soundcork-go/internal/datastore/datastore.go:607-614 | rewriting the sources never invalidates a presets body, which shows them |
| `ConditionalGet.DevicesGoUnnoticed` | soundcork-go/internal/marge/marge.go:191-215 | rewriting a device record never invalidates an account body, which shows it |
| `ConditionalGet.SameMillisecondUnnoticed` | soundcork-go/internal/datastore/datastore.go:634-646 | a rewrite of a covered file goes unnoticed exactly when it falls into the millisecond of the tag handed out before, and the 304 is then wrong if the content changed |
| `ConditionalGet.HiddenChange` | soundcork-go/internal/datastore/datastore.go:634-646 | with all files and a device record stored, a change within the millisecond is answered 304 by the account handler |
| `ConditionalGet.GetETagForAccount` | soundcork-go/internal/datastore/datastore.go:634-646 | the account tag is at least each of the presets, sources and recents tags and equals one of them |
| `ConditionalGet.TagRoundsDown` | soundcork-go/internal/datastore/datastore.go:607-632 | a tag is the file's time stamp in whole milliseconds, rounded down, and 0 for a missing file |
| `ConditionalGet.AccountRewriteNoticed` | soundcork-go/soundcork-go/handlers_marge.go:34-50 | a rewrite of presets, sources or recents a millisecond later always makes the account handler send the body again |
| `ConditionalGet.PresetsRewriteNoticed` | soundcork-go/soundcork-go/handlers_marge.go:86-102 | a rewrite of the presets a millisecond later always makes the presets handler send the body again |
| `ConditionalGet.QuietChange` | soundcork-go/soundcork-go/handlers_marge.go:104-152 | an undisturbed preset or recents request replaces its file and answers with the tag the file had before |
| `DeviceRegistry.ListAllDevices` | soundcork-go/internal/datastore/datastore.go:103-169 | the nested loops return the deduplicated readable records of all data directories |
| `DeviceRegistry.DedupMeans` | soundcork-go/internal/datastore/datastore.go:153-163 | the listing holds exactly the first record of each key that occurs, and no key twice |
| `DeviceRegistry.ListedAreReadable` | soundcork-go/internal/datastore/datastore.go:121-150 | the listing is made from exactly the records that parse in a device directory, or in a plain file DeviceInfo.xml, of a readable account directory |
| `DeviceRegistry.ListingRepresents` | soundcork-go/internal/datastore/datastore.go:121-163 | every readable record is represented by one of its device id, or address when it has no id, and no two listed records share it |
| `DeviceRegistry.ReachableIsNamed` | soundcork-go/internal/datastore/datastore.go:419-498 | in every state reachable from empty by add, remove and discovery, directories are named by their records' keys and recorded serials are device ids |
| `DeviceRegistry.SingleAccountListing` | soundcork-go/internal/datastore/datastore.go:103-169 | with one account the listing shows every stored record exactly once, in any visiting order |
| `DiscoveryPasses.PassDeletes` | soundcork-go/soundcork-go/main.go:54-100 | whatever the registry and whichever writes fail, every directory a pass deletes is in the default account and bears the key of a record that carried the serial of the speaker whose turn it was |
| `DiscoveryPasses.PassTouches` | soundcork-go/soundcork-go/main.go:48-105 | directories of other names than the discovered ones are as they were, or gone |
| `DiscoveryPasses.TurnStoresFields` | soundcork-go/soundcork-go/main.go:67-104 | what a turn stores, field by field, in account default under the serial, discovered or asked for, or else the host; nothing else is written |
| `DiscoveryPasses.TurnCleansUp` | soundcork-go/soundcork-go/main.go:54-100 | a speaker whose first record with its serial has another name loses exactly the directory of that name |
| `DiscoveryPasses.TurnKeepsUnknown` | soundcork-go/soundcork-go/main.go:54-100 | without a discovered serial, or with one that no record carries, no directory goes |
| `DiscoveryPasses.AllStoredIff` | soundcork-go/soundcork-go/main.go:48-105 | in whatever orders directories are visited, a pass whose saves succeed leaves every speaker stored under its serial or host exactly when no lookup gives the name of a speaker that had its turn before |
| `DiscoveryPasses.UnthreatenedAreStored` | soundcork-go/soundcork-go/main.go:48-105 | a check before the pass, for any registry and accounts: without a record that carries a later speaker's serial under an earlier one's name, outside the directories rewritten before, all speakers are stored |
| `DiscoveryPasses.PassIsDetermined` | soundcork-go/internal/datastore/datastore.go:121-139 | with directories read in the order of their names, the registry and the discovered speakers determine every state of the pass |
| `DiscoveryPasses.SortedStoredIff` | soundcork-go/soundcork-go/main.go:48-105 | in that order, and for any number of speakers, all are stored exactly when in no turn the first carrier of the speaker's serial, among the first records of their keys, has an earlier speaker's name |
| `DiscoveryPasses.TwoSpeakersStoredIff` | soundcork-go/soundcork-go/main.go:48-105 | of two speakers the first is lost exactly when, in the registry after its turn, the first carrier of the second's serial among the first-of-key records has its name |
| `DiscoveryPasses.SortedUnthreatenedAreStored` | soundcork-go/soundcork-go/main.go:48-105 | a check before the pass: only a record in a directory that sorts before the speaker's own can cost it its entry |
| `DiscoveryPasses.OneRecordCostsSpeaker` | soundcork-go/soundcork-go/main.go:54-100 | with one record of the first id and the second serial, wherever it is, the pass stores both speakers exactly when its directory does not sort before the first speaker's own |
| `DiscoveryPasses.PassEffect` | soundcork-go/soundcork-go/main.go:48-105 | with directories of one account named by their keys, a pass whose saves succeed stores every speaker, deletes only directories whose own record carried a discovered serial, and touches nothing else |
| `DiscoveryPasses.ServerBuiltAreStored` | soundcork-go/soundcork-go/main.go:48-105 | on states the server built nothing threatens a speaker, so every pass stores all, whatever the accounts |
| `DiscoveryPasses.TurnOnlySaves` | soundcork-go/soundcork-go/main.go:96-104 | on states the server built the clean-up never fires, whatever the accounts |
| `DiscoveryPasses.HostEntryStays` | soundcork-go/soundcork-go/main.go:96-100 | an entry stored under a host address stays when the serial shows up |
| `DiscoveryPasses.SamePassAgain` | soundcork-go/soundcork-go/main.go:48-105 | on states the server built, the same pass again changes nothing, whichever writes fail |
| `DeviceRegistry.DeviceStore.SaveDeviceInfo` | soundcork-go/internal/datastore/datastore.go:419-493 | the record is stored under the given name, unless the name is empty or the disk refuses |
| `DeviceRegistry.DeviceStore.RemoveDevice` | soundcork-go/internal/datastore/datastore.go:495-498 | a non-empty name takes exactly that directory away, an empty one exactly the account's directories; every other record is as it was |
| `DeviceRegistry.DeviceStore.AddDeviceToAccount` | soundcork-go/internal/marge/marge.go:422-450 | the device is stored under its id with only id and name |
| `DeviceRegistry.DeviceStore.DiscoverDevices` | soundcork-go/soundcork-go/main.go:48-105 | the loop is a pass: each turn looks up by serial in a listing of both data directories in the order of their names, cleans up and saves |
| `DeviceRegistry.DeviceStore.ReadPlaces` | soundcork-go/internal/datastore/datastore.go:121-139 | the directories are visited each once, in the order of their names, account by account |
| `Setup.BackupIsForever` | soundcork-go/internal/setup/setup.go:341-406 | over every sequence of calls with any command failures, an existing backup never changes again exactly when each later call finds it, has no effective copy, or copies the same content |
| `Setup.TruthfulTestsKeepBackup` | soundcork-go/internal/setup/setup.go:341-406 | with existence tests that reach the speaker the backup never changes once it exists, and equals the config just before the call that created it |
| `Setup.FirstCallDecides` | soundcork-go/internal/setup/setup.go:341-406 | a first migration or backup that takes a backup stores the config from before the run, kept as above; a first migration that takes none but writes its config leaves, at every later time and whatever works, only contents that migrations of the run wrote, as config and as backup |
| `Setup.BackupKeptIff` | soundcork-go/internal/setup/setup.go:341-406 | a call leaves an existing backup as it is exactly when the test finds it, neither way of copying has an effect, or it equals the config |
| `Setup.MigrationsLeadBack` | soundcork-go/internal/setup/setup.go:282-374 | after every sequence of calls with any options, proxies and failures, each URL of the config leads back, in as many hops as migrations kept it since, to the URL from before the run or the one that the last other migration set |
| `Setup.TrailMeans` | soundcork-go/internal/setup/setup.go:303-331 | that origin is the starting URL or the server's own URL of some migration that wrote its config, and there are no more hops than calls |
| `Setup.PlannedMeans` | soundcork-go/internal/setup/setup.go:292-331 | every planned URL either leads through the proxy to the URL the speaker has, when its option says so, or is the server's own |
| `Setup.PlanConfig` | soundcork-go/internal/setup/setup.go:292-331 | field by field, the plan is the server's URL or the wrapped current one; `GetMigrationSummary` contains the same code |
| `Setup.PlannedFields` | soundcork-go/internal/setup/setup.go:292-300 | every plan switches Pandora production and Zeroconf on and customer reports off; without a readable config it names the server's four URLs |
| `Setup.PlannedByDefault` | soundcork-go/internal/setup/setup.go:325-331 | without options all four current URLs are wrapped for the proxy, or the target when none is named |
| `Setup.PlannedByOptions` | soundcork-go/internal/setup/setup.go:311-324 | with options each URL is wrapped exactly when its own option says original |
| `Setup.MigrationWrites` | soundcork-go/internal/setup/setup.go:292-361 | a migration whose upload takes effect writes the plan for the config it could read and parse |
| `Setup.SwitchesStaySet` | soundcork-go/internal/setup/setup.go:292-361 | after any calls, once a migration has written its config, the switches are the server's |
| `Setup.MigrationReports` | soundcork-go/internal/setup/setup.go:282-374 | a migration succeeds exactly when upload and reboot do; its backup and markers are those of a backup and an enabling call |
| `Setup.BackupReports` | soundcork-go/internal/setup/setup.go:376-406 | a backup call fails without effect when a backup is found, else succeeds exactly when a way of copying is reported done, with the config as backup; an empty config is never uploaded |
| `Setup.EnsuredMeans` | soundcork-go/internal/setup/setup.go:410-436 | enabling remote services succeeds exactly when some attempt is reported done, then leaves a marker, and never creates other files |
| `Setup.EnsuredMarkers` | soundcork-go/internal/setup/setup.go:410-436 | the markers afterwards are the earlier ones and those of attempts that took effect before one was reported done, two for each location in order |
| `Setup.CheckRemoteServices` | soundcork-go/internal/setup/setup.go:261-276 | the summary finds exactly the existing markers whose test reaches the speaker and calls them persistent when one is not in /tmp |
| `Setup.Speaker.MigrateSpeaker` | soundcork-go/internal/setup/setup.go:282-374 | the commands in order have exactly the call's effect and result for every combination of failures |
| `Setup.Speaker.BackupConfig` | soundcork-go/internal/setup/setup.go:376-406 | the same for a backup call |
| `Setup.Speaker.EnsureRemoteServices` | soundcork-go/internal/setup/setup.go:410-436 | the loop stops at the first attempt reported done |
| `ProxyCodec.HopUnwrapsIff` | soundcork-go/soundcork-go/main.go:109-123 | one hop returns the wrapped URL exactly when no slash was lost or the host part does not start with one |
| `ProxyCodec.ChainUnwraps` | soundcork-go/soundcork-go/main.go:108-157 | for any number of proxies and any collapsed levels, following the wrapped URL returns the original, under that same condition at the innermost level |
| `ProxyCodec.RewriteTarget` | soundcork-go/soundcork-go/main.go:109-123 | the branches restore the target, or reject an empty one |
| `ProxyCodec.TargetMeans` | soundcork-go/soundcork-go/main.go:109-123 | only the empty target is rejected, and one that is no http URL is taken as it is |
| `ProxyCodec.SchemeRestored` | soundcork-go/soundcork-go/main.go:115-123 | a scheme with one slash gets its second one back |
| `ProxyCodec.SchemeKept` | soundcork-go/soundcork-go/main.go:115-123 | a scheme with two slashes is kept |
| `Ico.WriteIco` | soundcork-go/cmd/favicon-gen/main.go:86-141 | header, entries with the wrapping 32-bit offset, and blobs |
| `Ico.ReadOfWritten` | soundcork-go/cmd/favicon-gen/main.go:86-141 | reading the file by its directory returns the blobs in order and each dimension exactly when it lies between 1 and 256 |
| `Ico.WrittenRangesTile` | soundcork-go/cmd/favicon-gen/main.go:111-138 | the directory's ranges follow each other without gap or overlap from the end of the directory to the last byte |
| `Ico.CountFits` | soundcork-go/cmd/favicon-gen/main.go:96-100 | the count field holds the number of images exactly when there are fewer than 65536 |
| `Ico.EntryConstants` | soundcork-go/cmd/favicon-gen/main.go:111-132 | every entry says no palette, one plane and 32 bits |
| `Base64.FallbackInvertsBoth` | soundcork-go/internal/bmx/bmx.go:120-129 | the decoder inverts both encoders on every byte string; on a standard encoding the first attempt fails or is already right |
| `Base64.FallbackOrderIrrelevant` | soundcork-go/internal/bmx/bmx.go:261-269 | on every text the order of the two attempts does not matter |
| `Base64.AcceptedIff` | soundcork-go/internal/bmx/bmx.go:120-129 | a text is decoded exactly when, line breaks aside, it is whole groups of letters with at most two padding characters at the end |
| `Base64.BreaksIgnored` | soundcork-go/internal/bmx/bmx.go:120-129 | a line break anywhere does not change the result |
| `Base64.EncodedExamples` | soundcork-go/internal/bmx/bmx.go:120-129 | the examples for one, two and three bytes of section 10 of RFC 4648 |
| `Base64.AlphabetsAre` | soundcork-go/internal/bmx/bmx.go:120-129 | the letters of both alphabets |
| `Templates.OrdersAgreeIff` | soundcork-go/soundcork-go/handlers_bmx.go:31-33 | for a base URL without braces Go and Python agree on every template exactly when it is no part of MEDIA_SERVER |
| `Templates.GoSubstitutesIff` | soundcork-go/soundcork-go/handlers_bmx.go:31-33 | Go's result never contains a placeholder exactly when the base URL is no part of BMX_SERVER |
| `Templates.SlashIsEnough` | soundcork/main.py:333-335 | a slash in the base URL is enough for both |
| `Templates.OnePlaceholder` | soundcork-go/soundcork-go/handlers_bmx.go:31-33 | in plain text both programs put the base URL for BMX_SERVER and the base URL with /media for MEDIA_SERVER |
| `Events.EventLog.AddDeviceEvent` | soundcork-go/internal/datastore/datastore.go:672-684 | the device's log becomes the last hundred of itself and the event, and no other log changes although appends write in place |
| `Events.EventLog.GetDeviceEvents` | soundcork-go/internal/datastore/datastore.go:686-699 | a snapshot is a fresh copy of the log |
| `Events.AddAll` | soundcork-go/internal/datastore/datastore.go:672-699 | after any interleaving of additions every log is the last hundred of its earlier log and its own events in order, and an earlier snapshot is unaltered |
| `Events.CutEarly` | soundcork-go/internal/datastore/datastore.go:676-683 | cutting after every addition keeps the same events as cutting once at the end |
| `Events.LastHundredMeans` | soundcork-go/internal/datastore/datastore.go:676-683 | all of a log up to a hundred events is kept, then its last hundred |
| `Numerals.ParseOfItoa` | soundcork-go/internal/marge/marge.go:379-385 | parsing a printed integer gives it back |
| `Numerals.ParseIntMeans` | soundcork-go/internal/marge/marge.go:379-385 | what parses is digits behind at most one sign, and means their value with that sign |
| `Numerals.AtoiInRange` | soundcork-go/internal/marge/marge.go:379-385 | of those, exactly the 64-bit range is accepted |

## Left out

- XML and JSON text: files are typed records; the encoder is assumed to round-trip every string.
- The text of responses: the model gives the records and lookups they are built from.
- SSH, UPnP discovery, HTTP fetches and routing: their outcomes are parameters.
- Partial file writes, path cleaning and time formatting: writes are atomic, names are plain, times are integer seconds and time stamps non-negative nanoseconds.
- Two concurrent rewrites of one file, whose load and save interleave: each preset or recents request is one step, as the source has no lock to model.
- Failures of `os.RemoveAll`: removals succeed.
- ConditionalGet.NotModifiedIsTrue: says nothing of a device record rewritten after the client's body, in the tag's millisecond or later, because no tag covers it; the removal of a device directory is no event of this model.
- A `DeviceInfo.xml` lying directly in a devices directory: `DeviceRegistry.ListAllDevices` reads it, the registry of the discovery loop has no place for it.
- Changes to the alternative data directory during a pass: the server never writes there.
- Percent escapes and fragments in proxied URLs: a request path is the text between host and question mark, and the HTTP library is taken to pass the query on as it came, also an empty one.
- The default target URL: an empty `targetURL` is replaced by the server's own before the model starts.
- A generated source id beyond the 64-bit range would need 2^63 sources; the counter is unbounded here.
- Preset numbers so large that padding exhausts memory.
- Python's `add_recent` and `update_preset`, which update in place and are another machine.
- The Python backend, proxy logging, health, media, statistics files, SVG rendering and PNG encoding.
