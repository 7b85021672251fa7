# Verified model of five small cores of Vaadin Flow and Hummingbird

This project models five pieces of the Vaadin Flow / Hummingbird code base in Dafny and
proves what they promise.

- **Transaction log pruning** (`transaction_log_pruner.dfy`). Before the transaction log
  goes to the client, `TransactionLogPruner` removes from each state node's change list
  the changes the UI asked to ignore for that node id. It drops nodes whose list this
  empties and then clears the ignore table. The log, an insertion-ordered map, is a class
  holding a sequence of `(node id, changes)` entries. The ignore table is a class holding
  a map. `Prune` is the in-place loop, proved against the function `Pruned`; the lemmas
  say what survives.
- **List replace changes** (`list_replace_change.dfy`). `ListReplaceChange` is a value
  (index, new value, old value). It has null-safe equality, the `* 37` hash combination
  in 32-bit arithmetic, and a visitor call.
- **Tracking scheduler** (`tracking_scheduler.dfy`). `TrackingScheduler` counts deferred
  commands. It queues a decrement callback behind every command and fires an "empty"
  event when the count drops below one. It is a class over the deferred queue, a count of
  fired events, and a ghost history of the count. Its invariant ties the count to the
  callbacks still queued. The lazily created event type is a second class.
- **Usage statistics** (`usage_statistics.dfy`, `usage_statistics_state.dfy`,
  `pro_key.dfy`, `project_id.dfy`, `json_tree.dfy`). These cover the bookkeeping of the
  development-mode statistics:
  - the report interval and the "time to send" test;
  - counters, and the project list with its find-or-append;
  - the JVM string;
  - the decisions on telemetry posted by the browser;
  - how a reply of the statistics server updates the stored document;
  - where the pro key is read from;
  - the pseudonymous project id.

  JSON documents are values of `JsonTree.Json`. The static document, with its
  second reference to the current project (`projectJson`), is the class
  `UsageStatisticsState.Statistics`: the reference is the project's position in the
  `projects` array.
- **Template models** (`template_model.dfy`, `template.dfy`). A `Template`'s model proxy
  turns getter and setter calls into reads and writes of the template's state node.
  `Template` also finds event handler methods up the class hierarchy, determines and
  memoises the model, and builds handler arguments from browser events. Classes are
  sequences of method descriptors, and the state node is a map from property name to
  value.

Shared helpers: `Wrappers` (Option and Result), `JavaInts` (Java's `int` and `long`
arithmetic), `JavaStrings` (`indexOf`, `startsWith`, `split` with Java's removal of
trailing empty strings, ASCII case conversion, decimal printing) and `Sequences`
(subsequences).

Where the documentation and the code disagree, the model follows the code:

- `normalizeInterval` is documented to return the interval itself when it lies between 24
  hours and 30 days. The code returns 24 hours for every interval up to 30 days.
  `NormalizeInterval` is the code. `CappedIntervalReadsBackAs24h` and
  `IntervalAfterResponseIs24h` show the consequence: whatever interval the server asks
  for, the next `getInterval` reads 24 hours.
- `getJVMVersion` tests `os == null && ver == null` after both have been replaced by
  `[NA]`. That test can never hold, and `GetJvmVersion` proves the result is never `[NA]`
  alone.
- The first `incrementJsonValue` of a counter stores 0, not 1 (`CounterAfterIncrements`).

## Model

| member | source | states |
|---|---|---|
| ListReplace.Create | hummingbird-server/src/main/java/com/vaadin/hummingbird/kernel/change/ListReplaceChange.java:11-14 | the constructor puts the new value in the parent's value slot and keeps the old value, at the given index |
| ListReplace.GetOldValue | hummingbird-server/src/main/java/com/vaadin/hummingbird/kernel/change/ListReplaceChange.java:21-23 | the old value, together with the index and the new value, rebuilds the change |
| ListReplace.OldValueRoundTrip | hummingbird-server/src/main/java/com/vaadin/hummingbird/kernel/change/ListReplaceChange.java:11-23 | `getOldValue` returns the old value given to the constructor; the new value is the parent's value |
| ListReplace.HashCode | hummingbird-server/src/main/java/com/vaadin/hummingbird/kernel/change/ListReplaceChange.java:43-45 | the hash is congruent modulo 2^32 to parent hash * 37 + `Objects.hashCode(oldValue)` |
| ListReplace.ObjectsHashCode | hummingbird-server/src/main/java/com/vaadin/hummingbird/kernel/change/ListReplaceChange.java:44 | `Objects.hashCode` is 0 for null and the object's hash otherwise |
| ListReplace.ObjectsEqualsIsEquality | hummingbird-server/src/main/java/com/vaadin/hummingbird/kernel/change/ListReplaceChange.java:39 | null-safe `Objects.equals` holds exactly when both are null or both hold equal objects |
| ListReplace.EqualsIsEquality | hummingbird-server/src/main/java/com/vaadin/hummingbird/kernel/change/ListReplaceChange.java:37-40 | two replace changes are equal iff index, new value and old value all agree |
| ListReplace.OldValueDistinguishes | hummingbird-server/src/main/java/com/vaadin/hummingbird/kernel/change/ListReplaceChange.java:37-40 | changes differing only in their old value are not equal |
| ListReplace.EqualsSymmetric | hummingbird-server/src/main/java/com/vaadin/hummingbird/kernel/change/ListReplaceChange.java:37-40 | `equals` is symmetric |
| ListReplace.EqualChangesHashEqually | hummingbird-server/src/main/java/com/vaadin/hummingbird/kernel/change/ListReplaceChange.java:37-45 | equal changes have equal hashes for any parent hash and value hash |
| ListReplace.HashOfNullOldValue | hummingbird-server/src/main/java/com/vaadin/hummingbird/kernel/change/ListReplaceChange.java:43-45 | a null old value adds 0: the hash is the wrapped parent hash times 37 |
| ListReplace.Accept | hummingbird-server/src/main/java/com/vaadin/hummingbird/kernel/change/ListReplaceChange.java:26-28 | the visitor receives exactly one `visitListReplaceChange` call, with this node and this change |
| Pruning.RemoveAll | hummingbird-server/src/main/java/com/vaadin/server/communication/TransactionLogPruner.java:36 | `removeAll` keeps exactly the changes outside the ignore set, never adds any |
| Pruning.Prune | hummingbird-server/src/main/java/com/vaadin/server/communication/TransactionLogPruner.java:26-45 | the log becomes the pruned log of its old entries and old ignore table, the ignore table becomes empty, and the same log object is returned |
| Pruning.TransactionLogPruner.constructor | hummingbird-server/src/main/java/com/vaadin/server/communication/TransactionLogPruner.java:19-53 | the pruner prunes the given log in place and clears the ignore table; `getChanges` and `getTemplates` (`GetChanges`, `GetTemplates`) return that log and the given templates |
| Pruning.NoIgnoredChangeSurvives | hummingbird-server/src/main/java/com/vaadin/server/communication/TransactionLogPruner.java:33-36 | no change left in a node's list is in that node's ignore set |
| Pruning.OnlyUnignoredEntriesMayBeEmpty | hummingbird-server/src/main/java/com/vaadin/server/communication/TransactionLogPruner.java:35-39 | an entry with an empty list survives only if its node had no ignore set |
| Pruning.RemoveAllKeepsOrder | hummingbird-server/src/main/java/com/vaadin/server/communication/TransactionLogPruner.java:36 | the surviving changes are a subsequence of the original list, with every non-ignored change kept as often as it occurred |
| Pruning.PrunedKeepsNodeOrder | hummingbird-server/src/main/java/com/vaadin/server/communication/TransactionLogPruner.java:30-40 | the surviving node ids are a subsequence of the original ones: insertion order is kept |
| Pruning.PrunedEntryFate | hummingbird-server/src/main/java/com/vaadin/server/communication/TransactionLogPruner.java:33-40 | a node without an ignore set stays unchanged; one with an ignore set stays, filtered, exactly when its filtered list is non-empty |
| Pruning.PrunedIdsFromInput | hummingbird-server/src/main/java/com/vaadin/server/communication/TransactionLogPruner.java:30-40 | pruning adds no node: every surviving entry comes from the original log |
| Pruning.PruneIdempotent | hummingbird-server/src/main/java/com/vaadin/server/communication/TransactionLogPruner.java:30-42 | pruning again with the same ignore table changes nothing |
| Pruning.RemoveAllIdempotent | hummingbird-server/src/main/java/com/vaadin/server/communication/TransactionLogPruner.java:36 | removing the same ignore set twice equals removing it once |
| ReplacePruning.OtherOldValueSurvives | hummingbird-server/src/main/java/com/vaadin/hummingbird/kernel/change/ListReplaceChange.java:37-40 | in any log with distinct node ids, a logged change that differs from every ignored change of its node only in the old value stays in that node's pruned list |
| Scheduling.TrackingScheduler.constructor | flow-client/src/main/java/com/vaadin/client/TrackingScheduler.java:41 | the tracker count starts at 0 with an empty queue and no event fired |
| Scheduling.TrackingScheduler.ScheduleDeferred | flow-client/src/main/java/com/vaadin/client/TrackingScheduler.java:44-49 | the count grows by exactly one and the queue gains the command and then its decrement callback; the invariant (count = queued decrements) is kept |
| Scheduling.TrackingScheduler.DecrementDeferredTrackerAndNotifyHandlersIfNeeded | flow-client/src/main/java/com/vaadin/client/TrackingScheduler.java:51-56 | the count drops by one and one empty event fires exactly when the new count is below 1 |
| Scheduling.TrackingScheduler.HasWorkQueued | flow-client/src/main/java/com/vaadin/client/TrackingScheduler.java:76-78 | under the invariant, `hasWorkQueued` holds iff a deferred command or its decrement is still queued |
| Scheduling.TrackingScheduler.HasWorkQueuedIffQueueNotEmpty | flow-client/src/main/java/com/vaadin/client/TrackingScheduler.java:76-78 | `hasWorkQueued` holds iff the deferred queue is non-empty, and the count is never negative |
| Scheduling.NoPendingMeansEmpty | flow-client/src/main/java/com/vaadin/client/TrackingScheduler.java:41-56 | in every reachable queue, no pending decrement means an empty queue |
| Scheduling.TrackingScheduler.RunNextDeferred | flow-client/src/main/java/com/vaadin/client/TrackingScheduler.java:44-56 | running the head of the FIFO queue keeps the invariant; a decrement fires an event exactly when the count goes from 1 to 0 |
| Scheduling.TrackingScheduler.RunAllDeferred | flow-client/src/main/java/com/vaadin/client/TrackingScheduler.java:44-56 | draining the queue ends with count 0, and the empty event has fired once if there was work and never otherwise |
| Scheduling.EmptyEventStatics.GetType | flow-client/src/main/java/com/vaadin/client/TrackingScheduler.java:107-112 | the type is created on the first call and the same instance is returned afterwards |
| Scheduling.GetTypeTwice | flow-client/src/main/java/com/vaadin/client/TrackingScheduler.java:107-112 | two calls of `getType` return the same instance |
| UsageStatistics.NormalizeInterval | vaadin-dev-server/src/main/java/com/vaadin/base/devserver/VaadinUsageStatistics.java:542-546 | the result lies in [24h, 30d]: 30 days above 30 days, 24 hours for everything up to 30 days |
| UsageStatistics.CappedIntervalReadsBackAs24h | vaadin-dev-server/src/main/java/com/vaadin/base/devserver/VaadinUsageStatistics.java:542-546 | normalising a normalised interval always gives 24 hours, so normalising is not idempotent |
| UsageStatistics.GetLastSendTime | vaadin-dev-server/src/main/java/com/vaadin/base/devserver/VaadinUsageStatistics.java:664-671 | -1 when `lastSent` is missing, the stored long otherwise |
| UsageStatistics.GetInterval | vaadin-dev-server/src/main/java/com/vaadin/base/devserver/VaadinUsageStatistics.java:648-656 | 24 hours or 30 days; 30 days exactly when a stored interval reads, as a long, above 30 days; 24 hours when there is none |
| UsageStatistics.IsIntervalElapsed | vaadin-dev-server/src/main/java/com/vaadin/base/devserver/VaadinUsageStatistics.java:634-639 | unless `lastSend + interval` overflows, due exactly when more than the interval has passed since the last send |
| UsageStatistics.FreshStatisticsAreDue | vaadin-dev-server/src/main/java/com/vaadin/base/devserver/VaadinUsageStatistics.java:634-671 | without stored data, statistics are due exactly when now > 24h - 1 ms |
| UsageStatistics.DueAfterInterval | vaadin-dev-server/src/main/java/com/vaadin/base/devserver/VaadinUsageStatistics.java:634-639 | after a send at t, statistics are due exactly when now > t + interval |
| UsageStatistics.Incremented | vaadin-dev-server/src/main/java/com/vaadin/base/devserver/VaadinUsageStatistics.java:366-373 | an absent counter becomes 0, a present one its int value plus one (32-bit wrap); no other field changes |
| UsageStatistics.CounterAfterIncrements | vaadin-dev-server/src/main/java/com/vaadin/base/devserver/VaadinUsageStatistics.java:366-373 | n increments of a new counter leave it at n - 1 |
| UsageStatistics.FindById | vaadin-dev-server/src/main/java/com/vaadin/base/devserver/VaadinUsageStatistics.java:466-485 | null for a non-array; the first project with the id, array unchanged; else with createNew one `{id}` appended and returned, without it null |
| UsageStatistics.GetJvmVersion | vaadin-dev-server/src/main/java/com/vaadin/base/devserver/VaadinUsageStatistics.java:215-221 | `name / version` with `[NA]` for each missing part; never just `[NA]` |
| UsageStatistics.DecideTelemetry | vaadin-dev-server/src/main/java/com/vaadin/base/devserver/VaadinUsageStatistics.java:283-315 | not handled iff disabled or not a telemetry POST; 400 iff wrong content type, too long or no brace; the size marker iff too long; else the text from the first brace |
| UsageStatistics.TelemetryExplanationSkipped | vaadin-dev-server/src/main/java/com/vaadin/base/devserver/VaadinUsageStatistics.java:304-311 | an explanation before the JSON is skipped: the accepted text is the JSON itself |
| ProKeys.ParseProKey | vaadin-dev-server/src/main/java/com/vaadin/base/devserver/VaadinUsageStatistics.java:802-830 | a value is accepted iff splitting it on "/" gives exactly two parts, which become user name and key |
| ProKeys.ParseProKeyRoundTrip | vaadin-dev-server/src/main/java/com/vaadin/base/devserver/VaadinUsageStatistics.java:802-815 | `email/key` parses back to email and key |
| ProKeys.EmptyKeyRejected | vaadin-dev-server/src/main/java/com/vaadin/base/devserver/VaadinUsageStatistics.java:807-812 | `email/` is rejected, because the split drops the empty trailing part |
| ProKeys.TrailingSlashAccepted | vaadin-dev-server/src/main/java/com/vaadin/base/devserver/VaadinUsageStatistics.java:807-815 | `email/key/` is accepted as `email/key` |
| ProKeys.NoSlashRejected | vaadin-dev-server/src/main/java/com/vaadin/base/devserver/VaadinUsageStatistics.java:807-812 | a value without "/" is rejected |
| ProKeys.FromFile | vaadin-dev-server/src/main/java/com/vaadin/base/devserver/VaadinUsageStatistics.java:720-728 | the file's key is present iff it has a `proKey` field; the user name is always null |
| ProKeys.ReadKeyFile | vaadin-dev-server/src/main/java/com/vaadin/base/devserver/VaadinUsageStatistics.java:763-768 | a key is read iff the key file exists and is readable (an IOException gives null via lines 791-797); a read key has no user name and a key iff the file has a `proKey` field |
| ProKeys.GetLocalProKey | vaadin-dev-server/src/main/java/com/vaadin/base/devserver/VaadinUsageStatistics.java:783-800 | the system property wins, then the environment variable, then the key file |
| ProKeys.SystemPropertyTakesPrecedence | vaadin-dev-server/src/main/java/com/vaadin/base/devserver/VaadinUsageStatistics.java:783-787 | a well-formed system property gives its key whatever the other sources hold |
| ProKeys.EnvironmentVariableTakesPrecedence | vaadin-dev-server/src/main/java/com/vaadin/base/devserver/VaadinUsageStatistics.java:783-791 | with a malformed property, a well-formed environment variable wins over the file |
| ProKeys.GetProKeyAsWritten | vaadin-dev-server/src/main/java/com/vaadin/base/devserver/VaadinUsageStatistics.java:230-234 | as written: throws NullPointerException exactly when neither the property nor the variable splits into two parts and the key file is absent or unreadable; otherwise returns the key of the first source that yields a key object (null for a key file without a `proKey` field) |
| ProKeys.GetProKeyThrowsWithoutKey | vaadin-dev-server/src/main/java/com/vaadin/base/devserver/VaadinUsageStatistics.java:230-234 | as written, `getProKey` throws NullPointerException with no property, no variable and no key file |
| ProKeys.KeyFileWithoutProKeyGivesNull | vaadin-dev-server/src/main/java/com/vaadin/base/devserver/VaadinUsageStatistics.java:720-728 | as written, a readable key file without a `proKey` field, with no usable property or variable, makes `getProKey` return null without throwing |
| ProKeys.GetProKey | vaadin-dev-server/src/main/java/com/vaadin/base/devserver/VaadinUsageStatistics.java:230-234 | corrected: null where the code as written throws (no usable property or variable, key file absent or unreadable), and otherwise what the code as written returns |
| ProKeys.GetProKeyFromProperty | vaadin-dev-server/src/main/java/com/vaadin/base/devserver/VaadinUsageStatistics.java:230-234 | the corrected `getProKey` gives the property's key, and null with no sources |
| ProjectIds.FirstElementText | vaadin-dev-server/src/main/java/com/vaadin/base/devserver/VaadinUsageStatistics.java:425-433 | the text of the first child with the name, null iff there is none |
| ProjectIds.GetFirstElementTextByName | vaadin-dev-server/src/main/java/com/vaadin/base/devserver/VaadinUsageStatistics.java:425-433 | the indexed loop returns what `FirstElementText` specifies |
| ProjectIds.FirstLineContaining | vaadin-dev-server/src/main/java/com/vaadin/base/devserver/VaadinUsageStatistics.java:403-406 | the first line containing the text, absent iff no line contains it |
| ProjectIds.GradleProjectName | vaadin-dev-server/src/main/java/com/vaadin/base/devserver/VaadinUsageStatistics.java:403-409 | the default id without a `rootProject.name` line; otherwise a suffix of the first such line, starting at its first "=" when it has one and the whole line when it has none |
| ProjectIds.GenerateProjectId | vaadin-dev-server/src/main/java/com/vaadin/base/devserver/VaadinUsageStatistics.java:381-416 | the id is computed unless there is no POM and `settings.gradle` is not valid UTF-8, in which case an UncheckedIOException escapes |
| ProjectIds.MavenProjectId | vaadin-dev-server/src/main/java/com/vaadin/base/devserver/VaadinUsageStatistics.java:386-393 | a Maven id is "pom" plus the hash of group id then artifact id, with a missing artifact id read as "null" |
| ProjectIds.GradleProjectId | vaadin-dev-server/src/main/java/com/vaadin/base/devserver/VaadinUsageStatistics.java:400-410 | a Gradle id hashes the first `rootProject.name` line from its first "=" on, or the whole line when it has no "=" |
| ProjectIds.GradleWithoutRootProjectName | vaadin-dev-server/src/main/java/com/vaadin/base/devserver/VaadinUsageStatistics.java:403-410 | without a `rootProject.name` line, the id is "gradle" plus the hash of the default id |
| ProjectIds.UnparsablePomFallsBackToGradle | vaadin-dev-server/src/main/java/com/vaadin/base/devserver/VaadinUsageStatistics.java:386-414 | a POM that does not parse is passed over for the Gradle file |
| ProjectIds.MissingProjectsShareDefaultId | vaadin-dev-server/src/test/java/com/vaadin/base/devserver/VaadinUsageStatisticsTests.java:64-73 | folders without a POM and without a `settings.gradle` (or with one that cannot be opened) get the same id, the hash of the default id |
| ProjectIds.UndecodableGradleThrows | vaadin-dev-server/src/main/java/com/vaadin/base/devserver/VaadinUsageStatistics.java:400-413 | without a POM, an undecodable `settings.gradle` throws, while a missing or unopenable one gives the default id |
| ProjectIds.MavenCoordinatesCanCollide | vaadin-dev-server/src/main/java/com/vaadin/base/devserver/VaadinUsageStatistics.java:390 | group id and artifact id are joined without a separator, so `com.ex`/`ample` and `com.exa`/`mple` get the same id |
| ProjectIds.DifferentMavenCoordinatesDifferentIds | vaadin-dev-server/src/test/java/com/vaadin/base/devserver/VaadinUsageStatisticsTests.java:41-50 | with an injective hash, Maven projects whose group id and artifact id, concatenated without a separator, differ get different ids |
| ProjectIds.DifferentGradleNamesDifferentIds | vaadin-dev-server/src/test/java/com/vaadin/base/devserver/VaadinUsageStatisticsTests.java:52-61 | with an injective hash, different Gradle project names give different ids |
| UsageStatisticsState.ClientDataMerged | vaadin-dev-server/src/main/java/com/vaadin/base/devserver/VaadinUsageStatistics.java:336-345 | every field of a client object is set on the current project, the project's other fields are kept; no project or no object changes nothing |
| UsageStatisticsState.ResponseInterval | vaadin-dev-server/src/main/java/com/vaadin/base/devserver/VaadinUsageStatistics.java:510-515 | the stored interval is 24h or 30d, and 30d iff the reply holds a long above 30 days |
| UsageStatisticsState.AfterResponse | vaadin-dev-server/src/main/java/com/vaadin/base/devserver/VaadinUsageStatistics.java:505-528 | a reply without status changes nothing; otherwise send time, status, interval and a textual message are recorded, and a "200:" status resets the projects to one new entry, now current; other fields are kept |
| UsageStatisticsState.IntervalAfterResponseIs24h | vaadin-dev-server/src/main/java/com/vaadin/base/devserver/VaadinUsageStatistics.java:510-515 | whatever interval the server asks for, the next `getInterval` reads 24 hours |
| UsageStatisticsState.NextSendADayLater | vaadin-dev-server/src/main/java/com/vaadin/base/devserver/VaadinUsageStatistics.java:505-515 | after a reply at `now`, the next send is due exactly when more than 24 hours have passed |
| UsageStatisticsState.Statistics.SelectProject | vaadin-dev-server/src/main/java/com/vaadin/base/devserver/VaadinUsageStatistics.java:136-139 | a missing `projects` becomes an array; the current project is the first entry with the id, the array unchanged when one exists and the id appended at the end otherwise; a non-array leaves no project |
| UsageStatisticsState.Statistics.IncrementField | vaadin-dev-server/src/main/java/com/vaadin/base/devserver/VaadinUsageStatistics.java:355-358 | the current project's counter is incremented, nothing else changes; without a project, NullPointerException |
| UsageStatisticsState.Statistics.SendCurrentStatistics | vaadin-dev-server/src/main/java/com/vaadin/base/devserver/VaadinUsageStatistics.java:498-534 | the document, current project and message become those of `AfterResponse` |
| UsageStatisticsState.Statistics.UpdateProjectTelemetryData | vaadin-dev-server/src/main/java/com/vaadin/base/devserver/VaadinUsageStatistics.java:336-345 | the document becomes `ClientDataMerged` of the old one |
| UsageStatisticsState.Statistics.HandleClientTelemetryData | vaadin-dev-server/src/main/java/com/vaadin/base/devserver/VaadinUsageStatistics.java:283-329 | handled and 400 follow `DecideTelemetry`; the size marker or the parsed object is merged into the project; nothing is stored otherwise |
| TemplateModel.PrimitiveDefaultsAreZero | hummingbird-server/src/main/java/com/vaadin/ui/Template.java:144-154 | the defaults table holds exactly the numeric primitives, each with its zero |
| TemplateModel.StripAccessorPrefix | hummingbird-server/src/main/java/com/vaadin/ui/Template.java:223-224 | one leading set, get or is is removed; other names are unchanged |
| TemplateModel.PropertyName | hummingbird-server/src/main/java/com/vaadin/ui/Template.java:222-229 | fails iff nothing is left after the prefix; else the rest with its first character lower-cased |
| TemplateModel.PropertyNameRoundTrip | hummingbird-server/src/main/java/com/vaadin/ui/Template.java:222-229 | for each prefix, the accessor name of a property gives back the property |
| TemplateModel.AccessorsShareProperty | hummingbird-server/src/main/java/com/vaadin/ui/Template.java:222-229 | getX, setX and isX name the same property |
| TemplateModel.BarePrefixFails | hummingbird-server/src/main/java/com/vaadin/ui/Template.java:225-227 | methods named just set, get or is fail on the empty rest |
| TemplateModel.Dispatch | hummingbird-server/src/main/java/com/vaadin/ui/Template.java:166-191 | Object methods fail; get*/is* are getters of the return type; set* with a parameter are setters of its type and first argument; other names fail |
| TemplateModel.SetProperty | hummingbird-server/src/main/java/com/vaadin/ui/Template.java:193-201 | boolean false removes the key, any other value is stored; other keys are untouched |
| TemplateModel.GetProperty | hummingbird-server/src/main/java/com/vaadin/ui/Template.java:203-220 | boolean reads presence; other types read the stored value, else the primitive's default or null |
| TemplateModel.GetAfterSet | hummingbird-server/src/main/java/com/vaadin/ui/Template.java:193-207 | reading back a written property gives the written value |
| TemplateModel.SetLeavesOtherProperties | hummingbird-server/src/main/java/com/vaadin/ui/Template.java:193-201 | writing one property does not change how any other reads |
| TemplateModel.MissingPrimitiveReadsAsZero | hummingbird-server/src/main/java/com/vaadin/ui/Template.java:209-213 | a numeric primitive never written reads as its zero, not null |
| TemplateModel.Invoke | hummingbird-server/src/main/java/com/vaadin/ui/Template.java:166-220 | a failed dispatch returns its error and leaves the node; a getter returns `GetProperty` of the node and leaves it; a setter returns null and the node becomes `SetProperty` of the value |
| TemplateModel.SetterThenGetter | hummingbird-server/src/main/java/com/vaadin/ui/Template.java:172-207 | `setX(v)` returns null and a later `getX()` or `isX()` returns v |
| Templates.FirstHandlerIn | hummingbird-server/src/main/java/com/vaadin/ui/Template.java:103-110 | the position of the first declared method matching name, annotation and parameter count |
| Templates.HandlerPosition | hummingbird-server/src/main/java/com/vaadin/ui/Template.java:99-116 | the first matching method of the first class below `Template` that has one, none iff no class below `Template` declares one |
| Templates.FindTemplateEventHandlerMethod | hummingbird-server/src/main/java/com/vaadin/ui/Template.java:99-116 | the nested loops return the method `HandlerPosition` designates, or null |
| Templates.HandlerNeverFoundInTemplate | hummingbird-server/src/main/java/com/vaadin/ui/Template.java:101 | the search stops at `Template` itself |
| Templates.OwnHandlerWins | hummingbird-server/src/main/java/com/vaadin/ui/Template.java:101-110 | a handler declared in the concrete class is found before any inherited one |
| Templates.DeclaredGetModel | hummingbird-server/src/main/java/com/vaadin/ui/Template.java:134 | the first declared `getModel` with no parameters (no earlier method is a parameterless `getModel`), none iff there is none |
| Templates.ModelTypeFrom | hummingbird-server/src/main/java/com/vaadin/ui/Template.java:129-142 | the `Model` marker if no class below `Template` declares `getModel()`; any other result is the return type of a `getModel()` declared below `Template` |
| Templates.NearestGetModelDecides | hummingbird-server/src/main/java/com/vaadin/ui/Template.java:129-142 | the nearest `getModel()` decides: when a class below `Template` is the first, from the concrete class up, to declare `getModel()`, the model type is its return type |
| Templates.OwnGetModelDecides | hummingbird-server/src/main/java/com/vaadin/ui/Template.java:131-135 | a `getModel()` in the concrete class decides the model type |
| Templates.DoubleToInt | hummingbird-server/src/main/java/com/vaadin/ui/Template.java:79-80 | the `(int)` cast truncates toward zero inside the int range and saturates at Integer.MAX_VALUE and Integer.MIN_VALUE outside it |
| Templates.ConvertParam | hummingbird-server/src/main/java/com/vaadin/ui/Template.java:75-87 | an Element parameter given an array becomes the element reference whose node and template ids are the `(int)` casts of its first two numbers, and fails without two numbers; anything else goes to the converter unchanged |
| Templates.Template.GetModelType | hummingbird-server/src/main/java/com/vaadin/ui/Template.java:129-142 | the loop returns `ModelTypeFrom` of the class hierarchy |
| Templates.Template.CreateModel | hummingbird-server/src/main/java/com/vaadin/ui/Template.java:156-162 | a fresh model of the model type, a proxy unless the type is the marker |
| Templates.Template.GetModel | hummingbird-server/src/main/java/com/vaadin/ui/Template.java:122-127 | the model is created on the first call only; later calls return the same instance |
| Templates.Template.GetModelTwice | hummingbird-server/src/main/java/com/vaadin/ui/Template.java:122-127 | two calls of `getModel` return the same instance |
| Templates.Template.InvokeModelMethod | hummingbird-server/src/main/java/com/vaadin/ui/Template.java:166-220 | the result and the new state node are those of `Invoke`: a getter reads the node and leaves it, a setter returns null and writes the node |
| Templates.Template.OnBrowserEvent | hummingbird-server/src/main/java/com/vaadin/ui/Template.java:58-88 | no handler fails; otherwise the arguments succeed iff every parameter converts, and then each is its parameter's conversion; a failure names the first parameter that does not convert |

## Left out

- File and network I/O are not modelled: reading and writing the statistics file, the key
  files and the user key file, and posting to the server (`postData`). The reply of the
  server, the contents of `pom.xml` and `settings.gradle` (`PomFile`, `GradleFile`) and of
  the key file (`KeyFile`) are parameters.
- `System.getProperty`, `System.getenv`, `System.currentTimeMillis` and `UUID` are
  parameters or are not used. For the same reason `getOperatingSystem`, `getUserKey`,
  `getUserKeyLocation`, `getStatisticsFile`, `LocalProKey.write`/`getLocation` and
  `ProKey.toFile`/`toJson`/`fromJson` are not modelled.
- `init` is modelled only for its project lookup (`SelectProject`). Its sequence of field
  updates and its call to send statistics are orchestration over the modelled operations.
- The statistics switch and the reporting URL accessors are not modelled: they are plain
  field reads and writes. `enabled` is a field of `Statistics`.
- The MD5 hash `createHash` is an uninterpreted parameter `hash`. Its `[NA]` result for a
  null string or a missing MD5 algorithm is not modelled; the model never passes it a null
  string.
- XML parsing is not modelled: the POM is given as the document element's children.
  Jackson parsing is the parameter `parse`, where `None` is a parse failure.
- JsonTree.AsInt: Jackson's parsing of numeric text for `asInt`/`asLong` is not modelled;
  text reads as 0. JSON numbers with a fraction have no node kind in the model.
- UsageStatistics.IsIntervalElapsed: its contract names the result only when
  `lastSend + interval` does not overflow a long; the function itself wraps as Java does.
- ProjectIds.GenerateProjectId: `Files.lines` decodes `settings.gradle` lazily, in
  buffered chunks, so bytes that are not valid UTF-8 far after the first
  `rootProject.name` line may never be read. The model treats every such file
  (`UndecodableGradle`) as throwing the UncheckedIOException.
- UsageStatistics.GetLastSendTime: its contract names the result only for a missing field
  or a stored long in range; other node kinds follow `AsLong`.
- `Character.toLowerCase` is modelled for ASCII letters only.
- `synchronized` on the statistics file access is not modelled, since there is no
  concurrency in the model.
- The parent class `ListChange` is not part of this model. Its equality is taken to be
  equal index and `Objects.equals` of the values. Its hash is an arbitrary function of
  index and value.
- `ListReplaceChange.toString` is not modelled. `equals` is modelled between replace
  changes only, not against objects of other classes.
- In the pruner, a state node is identified by its id, and the entries of the log have
  distinct ids. The change lists are replaced rather than mutated in place, so aliasing of
  a list held elsewhere is not captured. `removeAll` uses value equality, which
  `EqualsIsEquality` shows to be `ListReplaceChange.equals`.
- Scheduling.TrackingScheduler: `deferredCommandTrackers` is a Java `int`, but the
  model's count is unbounded. It could wrap only with 2^31 commands queued at once. The
  invariant that ties the count to the queued decrement callbacks relies on the count
  being unbounded.
- The GWT scheduler is not modelled. Its deferred queue is assumed to be first-in
  first-out, and the commands themselves do nothing in the model.
- The GWT event bus, `addEmptyQueueListener`, `getAssociatedType` and `dispatch` are not
  modelled. The bus is a count of fired events.
- Java reflection is not modelled:
  - `getDeclaredMethods` order is taken to be declaration order, and synthetic bridge
    methods are not listed;
  - the `asSubclass(Model.class)` check is not modelled; an overriding `getModel` always
    passes it;
  - `Proxy.newProxyInstance` is a `ModelInstance` flagged as a proxy;
  - `method.invoke` and its exception wrapping are not modelled: `OnBrowserEvent` returns
    the handler and its arguments instead of calling it.
- `JsonConverter.fromJson`, `Element.getElement`, `StateNode.getById` and
  `UI.getTemplate` are not modelled. A converted argument keeps its type and JSON value,
  and an element argument keeps its node id and template id.
- `StateNode.get(key, type)` returns the stored value; its type conversion is not
  modelled.
- Templates.DoubleToInt: NaN and the infinities are not modelled, because doubles are
  reals here.
- Element arrays without two numbers give `BadElementReference`. The code throws
  IndexOutOfBounds or ClassCastException there.
- Java `assert` statements in the proxy are not modelled; they are disabled by default.
- The `Template` constructor's template parsing and callback registration are not
  modelled.

## Findings

| source | as written | input that shows it | evidently intended | confidence | as-written member | corrected member |
|---|---|---|---|---|---|---|
| vaadin-dev-server/src/main/java/com/vaadin/base/devserver/VaadinUsageStatistics.java:230-234 | `getProKey` calls `getProKey()` on the result of `LocalProKey.get()`, which is null when neither the property nor the variable splits into two parts and the key file is absent or unreadable (a key file without a `proKey` field gives a non-null object, and the result is then null) | no `vaadin.proKey` property, no `VAADIN_PRO_KEY` variable, no `~/.vaadin/proKey` file: NullPointerException | return null, as the documentation says ("Vaadin Pro Key or null") | not executed | ProKeys.GetProKeyAsWritten, ProKeys.GetProKeyThrowsWithoutKey | ProKeys.GetProKey |
