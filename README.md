# jira-trello-agent: record mapping, directional sync and command parsing

This project models, in Dafny, the three services that hold the decisions
of the jira-trello-agent repository, and proves what they promise.

- **Record mapping** (`src/services/MappingService.ts`, modules `Mapping`
  and `MappingProperties`). Translates a Jira issue into a partial Trello
  card and a Trello card into a partial set of Jira fields. The
  translation is driven by the configured field mappings and status
  mappings. It covers:
  - dot-path field lookup;
  - case-insensitive, first-match status lookup;
  - list resolution against a snapshot of the board's lists;
  - the `[Jira Issue: KEY]` backlink appended to a description, and its
    removal on the way back;
  - cutting a due date down to its date part;
  - the two fixed default mapping tables.

  Records are JSON trees (`Json.Value`). The mapping loops are methods
  proved against the functions that specify them.
- **Directional sync** (`src/services/SyncService.ts`, class
  `Sync.SyncService`, specified in `SyncSpec` and reasoned about in
  `SyncProperties`). The service holds three collections:
  - the task ledger, a sequence of `Task` entries with unique sparse
    `jiraId`/`trelloId` (module `Ledger`);
  - the sync history;
  - a log of the requests made to Jira and Trello.

  A pass fetches the records and the list snapshot, then syncs each record
  through its ledger entry: find or create the entry, create or update the
  counterpart, and save the entry as `synced` or `error`. It absorbs each
  item's failure, counts it, and ends with one history row. What Jira,
  Trello and the store answer is an input to the model:
  - the bulk and single fetch results;
  - one `Attempt` per item, holding the create or update reply, the faults
    of the two saves, and the time.
- **Command parsing** (`src/services/CommandParser.ts`, module
  `Commands`). Classifies a chat command by word lists over its stemmed
  tokens. It extracts:
  - a sync direction, from which of `jira` and `trello` comes first;
  - a task id, matched against the id pattern;
  - the list filter.

  It also filters a fixed list of suggestions. The tokenizer and the
  stemmer are function parameters.

Three behaviours of the code that its names do not suggest are stated as
lemmas rather than corrected:
- The history status is `failed` only when the errored count equals the
  synced count and some item failed. So a pass in which all N > 0 items
  fail is recorded as `partial` (`SyncProperties.AllFailedIsPartial`).
- A link made from the Trello side is stored under the new issue's `key`.
  The Jira side looks entries up by issue `id`, so it does not find that
  link (`SyncProperties.KeyLinkMissedById`).
- Command text is lowered before the id pattern is applied. So a ticket
  key such as `ABC-12` is never extracted
  (`Commands.ParsedTaskIdIsObjectId`).

## Model

| member | source | states |
|---|---|---|
| Mapping.GetStatusMapping | src/services/MappingService.ts:93-103 | a mapping is found iff some mapping's Jira (or Trello) status equals the given status ignoring case, and the one found is the first such mapping |
| Mapping.FindListByName | src/services/MappingService.ts:32-34 | a list is found iff some list's name equals the name ignoring case, and it is the first such list |
| Mapping.FindListById | src/services/MappingService.ts:74 | a list is found iff some list has exactly that id, and the one found is the first list with that id |
| Mapping.Resolve | src/services/MappingService.ts:105-119 | specification of the dot-path walk: stop with null at the first falsy value or missing member; its properties are `MappingProperties.ResolveAppend` and `MappingProperties.NestedFieldValue` |
| Mapping.TrelloFieldValue | src/services/MappingService.ts:121-126 | specification of a card property read: the first label's name for `labels` when the card has labels, else the raw property; its meaning is stated by `MappingProperties.FieldWriteMeans` |
| Mapping.GetJiraFieldValue | src/services/MappingService.ts:105-119 | the loop over the dot-separated parts returns the value `Resolve` reaches from `fields` along the path, following object properties, array indices and `length` of arrays and strings; null once a value is falsy or a part is missing |
| Mapping.MapJiraToTrello | src/services/MappingService.ts:13-52 | the card built field by field, including the last-write-wins label loop, is the partial card `JiraToTrello` specifies |
| Mapping.JiraToTrello | src/services/MappingService.ts:13-52 | specification of the Jira-to-Trello card; its properties are the `MappingProperties` lemmas on base fields, list assignment and labels |
| Mapping.MapLabelFields | src/services/MappingService.ts:41-49 | after the loop over the field mappings, `labels` holds the last label write if any mapping wrote one, and is untouched otherwise |
| Mapping.LabelFromMappingsStep | src/services/MappingService.ts:41-49 | one more field mapping either replaces the label chosen so far (when it writes one) or leaves it |
| Mapping.FirstBacklinkFrom | src/services/MappingService.ts:64 | the position returned is the first at or after the start where `[Jira Issue:`, a run without line terminators and a final `]` end the text; none is returned only when no such position exists |
| Mapping.MapTrelloToJira | src/services/MappingService.ts:54-91 | the field map built step by step, including the overwrite loop, is the map `TrelloToJira` specifies |
| Mapping.TrelloToJira | src/services/MappingService.ts:54-91 | specification of the Trello-to-Jira fields: the base fields, then the overwrite loop; its properties are `MappingProperties.StatusAssignment`, `OverwriteUntouched` and `OverwriteLastWins` |
| Mapping.MapOverwriteFields | src/services/MappingService.ts:82-88 | the overwrite loop yields the map `OverwriteFields` specifies |
| Mapping.OverwriteFields | src/services/MappingService.ts:82-88 | specification of the overwrite loop as a fold over the field mappings; its properties are `MappingProperties.OverwriteUntouched` and `OverwriteLastWins` |
| Mapping.DefaultFieldMappings | src/services/MappingService.ts:128-135 | the four default field mappings: summary to name, description to desc, duedate to due, assignee.displayName to idMembers |
| Mapping.DefaultStatusMappings | src/services/MappingService.ts:137-144 | the four default status mappings: To Do, In Progress to Doing, Done, Blocked |
| MappingProperties.ResolveAppend | src/services/MappingService.ts:105-119 | walking a path `p + q` is walking `p` and then `q` from where it ends |
| MappingProperties.SplitAtDot | src/services/MappingService.ts:107 | splitting on `.` gives `[head]` for a name without a dot and `[head, tail]` for `head.tail` |
| MappingProperties.NestedFieldValue | src/services/MappingService.ts:105-119 | a plain field name yields the field or null; `head.tail` yields the member `tail` of a truthy `head` (a property of an object, an element or the length of an array or string) and null in every other case |
| MappingProperties.IndexAndLengthSegments | src/services/MappingService.ts:105-119 | after a truthy field, a numeric segment picks an array element, and `length` gives the length of an array or non-empty string |
| MappingProperties.ArrayIndexExample | src/services/MappingService.ts:105-119 | `labels.0` reads the first element of a `labels` array |
| MappingProperties.StringLengthExample | src/services/MappingService.ts:105-119 | `summary.length` of `abc` is 3 |
| MappingProperties.JiraToTrelloBaseFields | src/services/MappingService.ts:17-27 | `name` is the summary; `desc` is present iff the description is non-empty, and is then description + blank line + `[Jira Issue: KEY]`; `due` is present iff the due date is non-empty, and is then copied unchanged |
| MappingProperties.StatusMappingIsFirstMatch | src/services/MappingService.ts:93-103 | the first mapping matching the status ignoring case is the one returned |
| MappingProperties.ListIsFirstMatch | src/services/MappingService.ts:32-34 | the first list whose name matches ignoring case is the one returned |
| MappingProperties.ListAssignment | src/services/MappingService.ts:30-38 | `idList` is absent when no status mapping matches or no list matches the mapping's Trello status, and is otherwise the id of the first matching list |
| MappingProperties.LabelsLastWriteWins | src/services/MappingService.ts:41-49 | the label of the card is the one written by the last mapping that writes a label |
| MappingProperties.NoLabelWrites | src/services/MappingService.ts:41-49 | when no mapping writes a label, the card gets no `labels` |
| MappingProperties.LabelWriteMeans | src/services/MappingService.ts:42-47 | a mapping writes a label iff its Trello field is `labels` and the resolved Jira value is truthy, and the label is that value |
| MappingProperties.TrimEndAppendedWhitespace | src/services/MappingService.ts:64 | trimming the end ignores whitespace appended to the text |
| MappingProperties.TrimRestores | src/services/MappingService.ts:64 | trimming a text with no surrounding whitespace, followed by whitespace, gives the text back |
| MappingProperties.FirstBacklinkIs | src/services/MappingService.ts:64 | the first position at which the backlink pattern matches is the one the search finds |
| MappingProperties.BacklinkIsFirstMatch | src/services/MappingService.ts:21-64 | in `d + "\n\n[Jira Issue: KEY]"` the pattern first matches right after the blank line, whatever `d` holds, when the key has no line terminator |
| MappingProperties.DescriptionTextRoundTrip | src/services/MappingService.ts:20-66 | stripping the backlink and trimming gives back a description with no surrounding whitespace |
| MappingProperties.DatePartOfDateTime | src/services/MappingService.ts:70 | the due date of `date + "T" + time` is `date`, and cutting it again changes nothing |
| MappingProperties.DatePartIdempotent | src/services/MappingService.ts:70 | the date part holds no `T`, and cutting it again changes nothing |
| MappingProperties.OverwriteUntouched | src/services/MappingService.ts:82-88 | a key that no mapping writes keeps its value from before the loop |
| MappingProperties.OverwriteLastWins | src/services/MappingService.ts:82-88 | a key gets the value of the last mapping that writes it with a truthy value |
| MappingProperties.FieldWriteMeans | src/services/MappingService.ts:121-126 | a write is always truthy; it is the raw card property for any field but `labels`; for `labels` it is the first label's name when the card has a label, and the raw `labels` array (truthy even when empty) when it has none |
| MappingProperties.EmptyLabelsWritten | src/services/MappingService.ts:121-126 | a card whose `labels` is the empty array writes that empty array, since an array is truthy |
| MappingProperties.DescriptionRoundTrip | src/services/MappingService.ts:20-88 | Jira to Trello to Jira gives back a description with no surrounding whitespace, when no field mapping targets `description` |
| MappingProperties.DefaultMappingsRawDescription | src/services/MappingService.ts:83-131 | with the default mappings the raw card `desc`, backlink included, overwrites the stripped description |
| MappingProperties.DefaultMappingsRawDueDate | src/services/MappingService.ts:83-132 | with the default mappings the raw `due` overwrites the date part |
| MappingProperties.DefaultMappingsFlatAssignee | src/services/MappingService.ts:83-133 | with the default mappings the card's members land under the flat key `assignee.displayName` |
| MappingProperties.DefaultMappingsSummary | src/services/MappingService.ts:60-130 | with the default mappings the summary is the card name |
| MappingProperties.StatusAssignment | src/services/MappingService.ts:73-80 | `status` is set iff the card's list exists and some mapping's Trello status matches its name ignoring case, and it is then the first match's Jira status |
| MappingProperties.InProgressMapsToDoing | src/services/MappingService.ts:137-144 | in the default status table, `In Progress` maps to `Doing` |
| MappingProperties.DoingIsSecondList | src/services/MappingService.ts:32-34 | among the lists `To Do`, `Doing` the name `Doing` finds the second |
| MappingProperties.DefaultLadderScenario | src/services/MappingService.ts:13-144 | with the default tables, an `In Progress` issue titled `Fix bug` maps to a card named `Fix bug` on the `Doing` list |
| Ledger.FindOne | src/services/SyncService.ts:124-167 | the entry found is the first whose id property equals the id; none is found only when no entry has it |
| Ledger.Save | src/models/Task.ts:21-23 | saving succeeds iff the title is present, the store raises no fault and no other entry holds either id; on success the entry is written in place or appended; it says which error is raised; a save keeps the ledger's unique-id and required-title invariant |
| SyncSpec.JiraRun | src/services/SyncService.ts:47-56 | a pass records one outcome per fetched issue |
| SyncSpec.TrelloRun | src/services/SyncService.ts:87-96 | a pass records one outcome per fetched card |
| SyncSpec.JiraStep | src/services/SyncService.ts:123-164 | specification of `syncJiraIssueToTrello`: find the entry by issue id, update or create the card, then settle; its properties are the `SyncProperties` Jira step lemmas |
| SyncSpec.TrelloStep | src/services/SyncService.ts:166-207 | specification of `syncTrelloCardToJira`: find the entry by card id, update or create a `Task` issue, then settle; its properties are the `SyncProperties` Trello step lemmas |
| SyncSpec.Settled | src/services/SyncService.ts:151-162 | specification of the save as synced and the error handler's save as errored; its meaning is `SyncProperties.SettledWritesOneEntry` |
| SyncSpec.SingleTask | src/services/SyncService.ts:111-121 | specification of `syncSingleTask`; its meaning is `SyncProperties.SingleTaskFetchOrder` |
| SyncSpec.PassResult | src/services/SyncService.ts:47-59 | specification of a pass's result from its outcomes; its meaning is `SyncProperties.PassResultMeaning` |
| SyncSpec.StatusOf | src/services/SyncService.ts:214 | specification of the history status; its meaning is `SyncProperties.HistoryStatusOfPass` |
| SyncSpec.JiraRunExtend | src/services/SyncService.ts:47-56 | one more issue runs one more step from the store the earlier issues left, and adds its error to the outcomes |
| SyncSpec.TrelloRunExtend | src/services/SyncService.ts:87-96 | one more card runs one more step from the store the earlier cards left, and adds its error to the outcomes |
| SyncSpec.TallyExtend | src/services/SyncService.ts:50-53 | an item that succeeds adds one to the synced count; one that fails adds one to the errored count and appends its message |
| SyncSpec.IssueKeys | src/services/SyncService.ts:53 | the labels used in the messages are the issues' keys, in order |
| SyncSpec.CardIds | src/services/SyncService.ts:93 | the labels used in the messages are the cards' ids, in order |
| Sync.SyncService.constructor | src/services/SyncService.ts:24-29 | the service starts with the given configuration, ledger and history, and no requests made |
| Sync.SyncService.SyncJiraToTrello | src/services/SyncService.ts:31-69 | a failed fetch is rethrown with the ledger and history unchanged; otherwise the ledger and requests are those of the specified pass, and with a user id the result is the pass's tally and exactly one history row is appended, while without one the pass's ledger changes stay, the required-field error is returned and no row is written |
| Sync.SyncService.RunJiraIssues | src/services/SyncService.ts:47-59 | the loop leaves the ledger and requests of the specified pass and returns its counters, messages and success flag |
| Sync.SyncService.SyncIssueAt | src/services/SyncService.ts:48-55 | syncing issue `i` extends the specified pass and the tally by that one issue, its failure absorbed |
| Sync.SyncService.SyncTrelloToJira | src/services/SyncService.ts:71-109 | the same contract as the Jira-to-Trello pass, over cards: a failed fetch is rethrown with nothing written; otherwise the ledger and requests are those of the specified Trello pass, and with a user id the result is the tally and one history row is appended, while without one the ledger changes stay, the required-field error is returned and no row is written |
| Sync.SyncService.RunTrelloCards | src/services/SyncService.ts:87-99 | the loop leaves the ledger and requests of the specified pass and returns its counters, messages and success flag |
| Sync.SyncService.SyncCardAt | src/services/SyncService.ts:88-95 | syncing card `i` extends the specified pass and the tally by that one card, its failure absorbed |
| Sync.SyncService.SyncSingleTask | src/services/SyncService.ts:111-121 | one record is synced as `SingleTask` specifies, and the history is unchanged |
| Sync.SyncService.SyncJiraIssueToTrello | src/services/SyncService.ts:123-164 | the ledger, requests and thrown error are those of the specified Jira step, and the history is unchanged |
| Sync.SyncService.SyncTrelloCardToJira | src/services/SyncService.ts:166-207 | the ledger, requests and thrown error are those of the specified Trello step, and the history is unchanged |
| Sync.SyncService.Settle | src/services/SyncService.ts:151-162 | the entry is saved as synced, or else as errored, exactly as `Settled` specifies; no request is made |
| Sync.SyncService.CreateSyncHistory | src/services/SyncService.ts:209-224 | with a user id, one row with the derived status is appended; without one, the required-field error is raised and nothing is written |
| SyncProperties.CountsAddUp | src/services/SyncService.ts:47-56 | synced plus errored is the number of items |
| SyncProperties.NoErrorsIffAllSynced | src/services/SyncService.ts:59 | the errored count is zero iff every item succeeded |
| SyncProperties.FailedIndices | src/services/SyncService.ts:51-53 | the failed items' positions, increasing, one per errored item, and every failed item among them |
| SyncProperties.MessagesFollowFailures | src/services/SyncService.ts:47-56 | the k-th error message is the prefix, the k-th failed item's label and its error, in iteration order |
| SyncProperties.PassResultMeaning | src/services/SyncService.ts:47-59 | a pass result's counts add up to the item count, there is one message per errored item, and success holds iff no item failed |
| SyncProperties.HistoryStatusOfPass | src/services/SyncService.ts:214 | the history status is `success` iff no item failed, `failed` iff some failed and errored equals synced, `partial` otherwise |
| SyncProperties.AllFailedIsPartial | src/services/SyncService.ts:214 | when all of N > 0 items fail, the status is `partial` |
| SyncProperties.SyncedNone | src/services/SyncService.ts:50 | when every item fails, none is counted as synced |
| SyncProperties.SettledWritesOneEntry | src/services/SyncService.ts:151-162 | the item succeeds iff the request and the save succeed, and the entry is then saved as synced; otherwise the entry is saved as errored with the request's error (or the first save's error), any newly linked id kept, and the item fails with that message; when this error save fails too, the ledger is unchanged and the item fails with the second save's error |
| SyncProperties.LinkedKept | src/services/SyncService.ts:138-148 | a link that a step keeps is still there afterwards |
| SyncProperties.JiraStepKeepsLinks | src/services/SyncService.ts:123-164 | a Jira step never removes a link from an issue id to a card |
| SyncProperties.JiraStepLinks | src/services/SyncService.ts:143-156 | an issue that syncs without error is linked to a card afterwards |
| SyncProperties.TrelloStepLinks | src/services/SyncService.ts:181-199 | a card that syncs without error is linked to an issue afterwards |
| SyncProperties.LinkedStepUpdates | src/services/SyncService.ts:138-140 | an issue already linked to a card makes exactly one request, an update of that card with the mapped card |
| SyncProperties.JiraStepKeepsValid | src/services/SyncService.ts:123-164 | a Jira step keeps the ledger's unique ids and required titles |
| SyncProperties.JiraRunKeepsValid | src/services/SyncService.ts:47-56 | a Jira pass keeps the ledger's unique ids and required titles |
| SyncProperties.JiraRunKeepsLinks | src/services/SyncService.ts:47-56 | a Jira pass never removes a link |
| SyncProperties.JiraRunLast | src/services/SyncService.ts:47-56 | the last issue of a pass keeps the earlier links and outcomes, links itself when it succeeds, keeps the ledger valid, and makes one update when already linked |
| SyncProperties.CleanPassLinksAll | src/services/SyncService.ts:47-148 | after a pass in which every issue succeeded, every issue is linked to a card |
| SyncProperties.LinkedPassOnlyUpdates | src/services/SyncService.ts:47-140 | a pass over issues that are all linked makes one request per issue, each an update |
| SyncProperties.RepeatedPassOnlyUpdates | src/services/SyncService.ts:124-149 | after a clean pass, a second pass over the same issues creates no card |
| SyncProperties.CreatedCardKeptOnFailedSave | src/services/SyncService.ts:143-162 | when the save after a create fails, the error save stores the new entry with the new card id, status error and the save's message |
| SyncProperties.CreatedIssueKeptOnFailedSave | src/services/SyncService.ts:186-204 | when the save after an issue creation fails, the error save stores the new entry with the new issue key, status error and the save's message |
| SyncProperties.TrelloCreateLinksKey | src/services/SyncService.ts:181-199 | a card never seen creates one issue of type `Task` with only summary and description, and stores the new issue's key as `jiraId` |
| SyncProperties.KeyLinkMissedById | src/services/SyncService.ts:124-191 | an issue whose id differs from the key stored by the Trello side is not found and gets a second card |
| SyncProperties.UnknownIssueCreates | src/services/SyncService.ts:124-148 | an issue whose id is in no entry makes exactly one request, a card creation |
| SyncProperties.TrelloStepKeepsValid | src/services/SyncService.ts:166-207 | a Trello step keeps the ledger's unique ids and required titles |
| SyncProperties.TrelloRunKeepsValid | src/services/SyncService.ts:87-96 | a Trello pass keeps the ledger's unique ids and required titles |
| SyncProperties.CardLinkedKept | src/services/SyncService.ts:181-192 | a card link that a step keeps is still there afterwards |
| SyncProperties.TrelloStepKeepsLinks | src/services/SyncService.ts:166-207 | a Trello step never removes a link from a card id to an issue |
| SyncProperties.LinkedCardStepUpdates | src/services/SyncService.ts:181-183 | a card already linked to an issue makes exactly one request, an update of that issue with the mapped fields |
| SyncProperties.TrelloRunKeepsLinks | src/services/SyncService.ts:87-96 | a Trello pass never removes a card link |
| SyncProperties.TrelloRunLast | src/services/SyncService.ts:87-96 | the last card of a pass keeps the earlier links and outcomes, links itself when it succeeds, keeps the ledger valid, and makes one update when already linked |
| SyncProperties.CleanTrelloPassLinksAll | src/services/SyncService.ts:87-199 | after a Trello pass in which every card succeeded, every card is linked to an issue |
| SyncProperties.LinkedTrelloPassOnlyUpdates | src/services/SyncService.ts:87-183 | a Trello pass over cards that are all linked makes one request per card, each an issue update |
| SyncProperties.RepeatedTrelloPassOnlyUpdates | src/services/SyncService.ts:167-192 | after a clean Trello pass, a second pass over the same cards creates no issue |
| SyncProperties.SingleTaskFetchOrder | src/services/SyncService.ts:111-121 | the record is fetched first (an issue only for `jira_to_trello`, a card for any other direction), then the lists; a failed fetch is rethrown and nothing further happens |
| Commands.ContainsWords | src/services/CommandParser.ts:112-114 | true iff some listed word is one of the tokens |
| Commands.ExtractId | src/services/CommandParser.ts:116-120 | the id returned is the first token matching the id pattern; none is returned only when no token matches |
| Commands.LoweredHasNoCapitals | src/services/CommandParser.ts:26 | a lowered command has no capital letter |
| Commands.PieceHasNoCapitals | src/services/CommandParser.ts:26 | a piece of a text without capitals has none |
| Commands.IdsWithoutCapitals | src/services/CommandParser.ts:118-119 | over tokens without capitals, any id found is a 24-digit lowercase hex id |
| Commands.ParsedTaskIdIsObjectId | src/services/CommandParser.ts:26-120 | a task id parsed from a command is never a ticket key, only a 24-digit lowercase hex id |
| Commands.ExtractDirection | src/services/CommandParser.ts:122-139 | a direction is found iff `jira`, `trello` and one of `to`, `a`, `hacia` are all tokens |
| Commands.DirectionByFirstMention | src/services/CommandParser.ts:128-135 | the direction is Jira to Trello iff `jira` occurs before any `trello`, and Trello to Jira iff `trello` occurs before any `jira` |
| Commands.ParseStatus | src/services/CommandParser.ts:84-91 | a status command is always `status` with no parameters |
| Commands.ParseSync | src/services/CommandParser.ts:61-82 | specification of `parseSyncCommand`; its meaning is `Commands.SyncParameters` |
| Commands.ParseList | src/services/CommandParser.ts:93-106 | specification of `parseListCommand`; its meaning is `Commands.ListEntity` |
| Commands.Classify | src/services/CommandParser.ts:31-58 | specification of the dispatch of `parseCommand` over stemmed tokens; its meaning is `Commands.DispatchPriority` and `Commands.ConfigureThenUnknown` |
| Commands.ParseCommand | src/services/CommandParser.ts:25-59 | specification of `parseCommand`: lower, tokenize, stem, then classify |
| Commands.DispatchPriority | src/services/CommandParser.ts:32-44 | sync iff a sync word; status iff no sync word and a status word; list iff neither and a list word |
| Commands.ConfigureThenUnknown | src/services/CommandParser.ts:46-58 | after the first three lists, a config word gives `configure` and anything else the `UNKNOWN_COMMAND` error quoting the command |
| Commands.ShowNeverLists | src/services/CommandParser.ts:37-42 | a command containing `show` never reaches `list` |
| Commands.SyncParameters | src/services/CommandParser.ts:61-82 | a now word gives no parameters even with an id; otherwise the parameters are the extracted id and direction |
| Commands.ListEntity | src/services/CommandParser.ts:93-106 | pending words win over error words, and the default is all tasks |
| Commands.TaskIdOnlyFromSync | src/services/CommandParser.ts:32-71 | only a sync command carries a task id, and it is the extracted one |
| Commands.MatchingPositions | src/services/CommandParser.ts:159-160 | the positions kept are, in increasing order, exactly those of the commands that contain the lowered partial |
| Commands.Suggestions | src/services/CommandParser.ts:159-161 | the suggestions are the first five (or fewer) matching commands, in order |
| Commands.GetSuggestions | src/services/CommandParser.ts:141-162 | at most five suggestions, each one of the fixed commands and containing the partial ignoring case |
| Commands.SuggestionsMeaning | src/services/CommandParser.ts:141-162 | at most five suggestions, each a listed command containing the partial; fewer than five only when every match is included |
| Commands.SuggestionsInOrder | src/services/CommandParser.ts:159-161 | suggestions keep the order of the command list |
| Commands.AllPositionsMatch | src/services/CommandParser.ts:159-160 | when every command matches, every position is kept |
| Commands.EmptyPartialFirstFive | src/services/CommandParser.ts:159-161 | the empty partial suggests the first five commands |
| Commands.EmptyPartialSuggestions | src/services/CommandParser.ts:143-161 | the empty partial suggests the five Spanish commands that head the fixed list |

## Left out

- Case folding is Unicode's `toLowerCase` only on ASCII and Latin-1 letters. Other scripts are compared unchanged, because Dafny has no Unicode tables.
- The JSON records are assumed to have the declared shape: a string summary, a status with a name, a string key and id, a string card id and name (`IsJiraIssue`, `IsTrelloCard`). The JavaScript errors from reading a property of a value that is not an object are not modelled.
- The code starts the two bulk fetches together with `Promise.all`, and which rejection wins depends on timing. The model makes them one after the other and rethrows the issue or card fetch's error first.
- A rejected `Task.findOne` (src/services/SyncService.ts:124 and :167) is not modelled: the entry lookup always answers. In the code such a rejection counts the item as errored before any request or save is made.
- JavaScript strings index and measure UTF-16 code units; the model indexes and measures characters. Properties inherited from prototypes (methods such as `toString`, which are truthy) are absent from `Json.Member`.
- Faults of the history save other than the missing `userId` are not modelled, and neither are the store's own error texts beyond the two kinds the model produces.
- `getSyncStatus` (src/services/SyncService.ts:226-249) is database queries only.
- The scheduler that runs the two directions one after the other is not part of this model.
- The logger calls, and the `Sync failed` message that the code appends to a result it then discards.
- `Date.now` and `new Date()`: the pass duration, each item's sync time and the history row's time are inputs.
- The `natural` word tokenizer and Porter stemmer are function parameters.
- The HTTP connectors: their answers are the `Attempt` and fetch inputs, and their requests are logged as `RemoteCall` values.
- MappingProperties.NoLabelWrites: states only that no label write leaves `labels` absent. It does not state the converse.
- Commands.SyncParameters: the code returns `{}` on one path and `{direction: undefined}` on another. Both are `NoParams` here, because an absent and an undefined parameter are alike once serialised.
- Commands.ParsedTaskIdIsObjectId: requires that every token is a piece of the lowered command. The tokenizer's own behaviour is not modelled.
- The `sync` and `sincroniz` check inside `parseStatusCommand` returns the same result as its fallback. It is modelled by `Commands.ParseStatus` as one case.
