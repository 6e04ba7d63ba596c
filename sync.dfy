/** `SyncService`: one directional pass over the fetched records, each
    record synced through its ledger entry, the failures absorbed and
    counted, and a history row at the end. The ledger and the history are
    the two collections the service writes; `calls` logs its requests to
    Jira and Trello. Every method is proved to do what `SyncSpec` says. */
module Sync {
  import opened Wrappers
  import opened Json
  import opened Mapping
  import opened Ledger
  import opened SyncSpec

  class SyncService {
    const config: Config
    var ledger: seq<Task>
    var history: seq<HistoryRow>
    var calls: seq<RemoteCall>

    constructor(config: Config, ledger: seq<Task>, history: seq<HistoryRow>)
      ensures this.config == config && this.ledger == ledger && this.history == history && calls == []
    {
      this.config := config;
      this.ledger := ledger;
      this.history := history;
      calls := [];
    }

    /** `syncJiraToTrello`, given the answers of the two fetches, one
        `Attempt` per issue, the pass's duration and the time its history
        row is written. */
    method SyncJiraToTrello(fetchedIssues: Result<seq<JiraIssue>>, fetchedLists: Result<seq<TrelloList>>,
                            attempts: seq<Attempt>, duration: int, clock: int) returns (r: Result<SyncResult>)
      requires fetchedIssues.Ok? ==> |attempts| == |fetchedIssues.value| && AllJiraIssues(fetchedIssues.value)
      modifies this
      ensures fetchedIssues.Err? || fetchedLists.Err? ==>
                && r == Err(if fetchedIssues.Err? then fetchedIssues.msg else fetchedLists.msg)
                && ledger == old(ledger) && history == old(history)
                && calls == old(calls) + [GetIssuesByProject, GetLists]
      ensures fetchedIssues.Ok? && fetchedLists.Ok? ==>
                var run := JiraRun(config, Store(old(ledger), old(calls) + [GetIssuesByProject, GetLists]),
                                   fetchedIssues.value, fetchedLists.value, attempts);
                var result := PassResult(IssuePrefix, IssueKeys(fetchedIssues.value), run.outcomes, duration);
                && ledger == run.store.ledger && calls == run.store.calls
                && (config.userId != "" ==> r == Ok(result) && history == old(history) + [HistoryRowFor(config.userId, ToTrello, result, clock)])
                && (config.userId == "" ==> r == Err(UserIdRequired) && history == old(history))
    {
      calls := calls + [GetIssuesByProject, GetLists];
      if fetchedIssues.Err? {
        return Err(fetchedIssues.msg);
      }
      if fetchedLists.Err? {
        return Err(fetchedLists.msg);
      }
      var issues := fetchedIssues.value;
      var result := RunJiraIssues(issues, fetchedLists.value, attempts, duration);
      var failure := CreateSyncHistory(ToTrello, result, clock);
      r := if failure.Some? then Err(failure.value) else Ok(result);
    }

    /** The loop of `syncJiraToTrello`: sync every issue, count it as synced
        or errored, and keep one message per error. */
    method RunJiraIssues(issues: seq<JiraIssue>, lists: seq<TrelloList>, attempts: seq<Attempt>, duration: int)
      returns (result: SyncResult)
      requires |attempts| == |issues| && AllJiraIssues(issues)
      modifies this
      ensures var run := JiraRun(config, Store(old(ledger), old(calls)), issues, lists, attempts);
              && ledger == run.store.ledger && calls == run.store.calls && history == old(history)
              && result == PassResult(IssuePrefix, IssueKeys(issues), run.outcomes, duration)
    {
      var tally := Tally(0, 0, []);
      ghost var outcomes: seq<Option<string>> := [];
      ghost var start := Store(ledger, calls);
      var i := 0;
      while i < |issues|
        invariant 0 <= i <= |issues|
        invariant history == old(history)
        invariant JiraRun(config, start, issues[..i], lists, attempts[..i]) == Run(Store(ledger, calls), outcomes)
        invariant tally == TallyOf(IssuePrefix, IssueKeys(issues)[..i], outcomes)
      {
        tally, outcomes := SyncIssueAt(issues, lists, attempts, i, tally, start, outcomes);
        i := i + 1;
      }
      assert issues[..i] == issues && attempts[..i] == attempts && IssueKeys(issues)[..i] == IssueKeys(issues);
      result := SyncResult(tally.errored == 0, tally.synced, tally.errored, tally.messages, duration);
    }

    /** One turn of the loop of `syncJiraToTrello`: sync the `i`th issue and
        count it as synced, or as errored with a message naming it. */
    method SyncIssueAt(issues: seq<JiraIssue>, lists: seq<TrelloList>, attempts: seq<Attempt>, i: nat, tally: Tally,
                       ghost start: Store, ghost outcomes: seq<Option<string>>)
      returns (tally': Tally, ghost outcomes': seq<Option<string>>)
      requires i < |issues| && |attempts| == |issues| && AllJiraIssues(issues)
      requires JiraRun(config, start, issues[..i], lists, attempts[..i]) == Run(Store(ledger, calls), outcomes)
      requires tally == TallyOf(IssuePrefix, IssueKeys(issues)[..i], outcomes)
      modifies this
      ensures JiraRun(config, start, issues[..i + 1], lists, attempts[..i + 1]) == Run(Store(ledger, calls), outcomes')
      ensures tally' == TallyOf(IssuePrefix, IssueKeys(issues)[..i + 1], outcomes')
      ensures history == old(history)
    {
      JiraRunExtend(config, start, issues, lists, attempts, i);
      var error := SyncJiraIssueToTrello(issues[i], lists, attempts[i]);
      if error.None? {
        tally' := tally.(synced := tally.synced + 1);
      } else {
        tally' := tally.(errored := tally.errored + 1,
                         messages := tally.messages + [IssuePrefix + issues[i].key + ": " + error.value]);
      }
      outcomes' := outcomes + [error];
      TallyExtend(IssuePrefix, IssueKeys(issues)[..i], outcomes, issues[i].key, error);
      SliceExtend(IssueKeys(issues), i);
    }

    /** `syncTrelloToJira`. */
    method SyncTrelloToJira(fetchedCards: Result<seq<TrelloCard>>, fetchedLists: Result<seq<TrelloList>>,
                            attempts: seq<Attempt>, duration: int, clock: int) returns (r: Result<SyncResult>)
      requires fetchedCards.Ok? ==> |attempts| == |fetchedCards.value| && AllTrelloCards(fetchedCards.value)
      modifies this
      ensures fetchedCards.Err? || fetchedLists.Err? ==>
                && r == Err(if fetchedCards.Err? then fetchedCards.msg else fetchedLists.msg)
                && ledger == old(ledger) && history == old(history)
                && calls == old(calls) + [GetCardsByBoard, GetLists]
      ensures fetchedCards.Ok? && fetchedLists.Ok? ==>
                var run := TrelloRun(config, Store(old(ledger), old(calls) + [GetCardsByBoard, GetLists]),
                                     fetchedCards.value, fetchedLists.value, attempts);
                var result := PassResult(CardPrefix, CardIds(fetchedCards.value), run.outcomes, duration);
                && ledger == run.store.ledger && calls == run.store.calls
                && (config.userId != "" ==> r == Ok(result) && history == old(history) + [HistoryRowFor(config.userId, ToJira, result, clock)])
                && (config.userId == "" ==> r == Err(UserIdRequired) && history == old(history))
    {
      calls := calls + [GetCardsByBoard, GetLists];
      if fetchedCards.Err? {
        return Err(fetchedCards.msg);
      }
      if fetchedLists.Err? {
        return Err(fetchedLists.msg);
      }
      var cards := fetchedCards.value;
      var result := RunTrelloCards(cards, fetchedLists.value, attempts, duration);
      var failure := CreateSyncHistory(ToJira, result, clock);
      r := if failure.Some? then Err(failure.value) else Ok(result);
    }

    /** The loop of `syncTrelloToJira`. */
    method RunTrelloCards(cards: seq<TrelloCard>, lists: seq<TrelloList>, attempts: seq<Attempt>, duration: int)
      returns (result: SyncResult)
      requires |attempts| == |cards| && AllTrelloCards(cards)
      modifies this
      ensures var run := TrelloRun(config, Store(old(ledger), old(calls)), cards, lists, attempts);
              && ledger == run.store.ledger && calls == run.store.calls && history == old(history)
              && result == PassResult(CardPrefix, CardIds(cards), run.outcomes, duration)
    {
      var tally := Tally(0, 0, []);
      ghost var outcomes: seq<Option<string>> := [];
      ghost var start := Store(ledger, calls);
      var i := 0;
      while i < |cards|
        invariant 0 <= i <= |cards|
        invariant history == old(history)
        invariant TrelloRun(config, start, cards[..i], lists, attempts[..i]) == Run(Store(ledger, calls), outcomes)
        invariant tally == TallyOf(CardPrefix, CardIds(cards)[..i], outcomes)
      {
        tally, outcomes := SyncCardAt(cards, lists, attempts, i, tally, start, outcomes);
        i := i + 1;
      }
      assert cards[..i] == cards && attempts[..i] == attempts && CardIds(cards)[..i] == CardIds(cards);
      result := SyncResult(tally.errored == 0, tally.synced, tally.errored, tally.messages, duration);
    }

    /** One turn of the loop of `syncTrelloToJira`. */
    method SyncCardAt(cards: seq<TrelloCard>, lists: seq<TrelloList>, attempts: seq<Attempt>, i: nat, tally: Tally,
                      ghost start: Store, ghost outcomes: seq<Option<string>>)
      returns (tally': Tally, ghost outcomes': seq<Option<string>>)
      requires i < |cards| && |attempts| == |cards| && AllTrelloCards(cards)
      requires TrelloRun(config, start, cards[..i], lists, attempts[..i]) == Run(Store(ledger, calls), outcomes)
      requires tally == TallyOf(CardPrefix, CardIds(cards)[..i], outcomes)
      modifies this
      ensures TrelloRun(config, start, cards[..i + 1], lists, attempts[..i + 1]) == Run(Store(ledger, calls), outcomes')
      ensures tally' == TallyOf(CardPrefix, CardIds(cards)[..i + 1], outcomes')
      ensures history == old(history)
    {
      TrelloRunExtend(config, start, cards, lists, attempts, i);
      var error := SyncTrelloCardToJira(cards[i], lists, attempts[i]);
      if error.None? {
        tally' := tally.(synced := tally.synced + 1);
      } else {
        tally' := tally.(errored := tally.errored + 1,
                         messages := tally.messages + [CardPrefix + CardId(cards[i]) + ": " + error.value]);
      }
      outcomes' := outcomes + [error];
      TallyExtend(CardPrefix, CardIds(cards)[..i], outcomes, CardId(cards[i]), error);
      SliceExtend(CardIds(cards), i);
    }

    /** `syncSingleTask`: no counters and no history row. */
    method SyncSingleTask(taskId: string, direction: string, fetchedIssue: Result<JiraIssue>,
                          fetchedCard: Result<TrelloCard>, fetchedLists: Result<seq<TrelloList>>, a: Attempt)
      returns (error: Option<string>)
      requires fetchedIssue.Ok? ==> IsJiraIssue(fetchedIssue.value)
      requires fetchedCard.Ok? ==> IsTrelloCard(fetchedCard.value)
      modifies this
      ensures Step(Store(ledger, calls), error) ==
              SingleTask(config, Store(old(ledger), old(calls)), taskId, direction, fetchedIssue, fetchedCard, fetchedLists, a)
      ensures history == old(history)
    {
      if direction == "jira_to_trello" {
        calls := calls + [GetIssue(taskId)];
        if fetchedIssue.Err? {
          return Some(fetchedIssue.msg);
        }
        calls := calls + [GetLists];
        if fetchedLists.Err? {
          return Some(fetchedLists.msg);
        }
        error := SyncJiraIssueToTrello(fetchedIssue.value, fetchedLists.value, a);
      } else {
        calls := calls + [GetCard(taskId)];
        if fetchedCard.Err? {
          return Some(fetchedCard.msg);
        }
        calls := calls + [GetLists];
        if fetchedLists.Err? {
          return Some(fetchedLists.msg);
        }
        error := SyncTrelloCardToJira(fetchedCard.value, fetchedLists.value, a);
      }
    }

    /** `syncJiraIssueToTrello`: the issue's error, if it was thrown out with one. */
    method SyncJiraIssueToTrello(issue: JiraIssue, lists: seq<TrelloList>, a: Attempt) returns (error: Option<string>)
      requires IsJiraIssue(issue)
      modifies this
      ensures Step(Store(ledger, calls), error) == JiraStep(config, Store(old(ledger), old(calls)), issue, lists, a)
      ensures history == old(history)
    {
      var found := FindOne(ledger, JiraIdField, issue.id);
      var task := if found.Some? then ledger[found.value]
                  else NewTask(Some(issue.id), None, Summary(issue), ToTrello, a.at);
      var failure: Option<string> := None;
      var mappedCard := MapJiraToTrello(config, issue, lists);
      if IsSet(task.trelloId) {
        calls := calls + [UpdateCard(task.trelloId.value, mappedCard)];
        if a.reply.Err? {
          failure := Some(a.reply.msg);
        }
      } else {
        var listId := CreateListId(mappedCard, lists);
        if listId.None? {
          failure := Some(NoListMessage);
        } else {
          calls := calls + [CreateCard(mappedCard.(idList := listId))];
          match a.reply {
            case Err(msg) => failure := Some(msg);
            case Ok(cardId) => task := task.(trelloId := Some(cardId));
          }
        }
      }
      error := Settle(found, task, failure, a);
    }

    /** `syncTrelloCardToJira`. */
    method SyncTrelloCardToJira(card: TrelloCard, lists: seq<TrelloList>, a: Attempt) returns (error: Option<string>)
      requires IsTrelloCard(card)
      modifies this
      ensures Step(Store(ledger, calls), error) == TrelloStep(config, Store(old(ledger), old(calls)), card, lists, a)
      ensures history == old(history)
    {
      var found := FindOne(ledger, TrelloIdField, CardId(card));
      var task := if found.Some? then ledger[found.value]
                  else NewTask(None, Some(CardId(card)), CardName(card), ToJira, a.at);
      var failure: Option<string> := None;
      var mappedFields := MapTrelloToJira(config, card, lists);
      if IsSet(task.jiraId) {
        calls := calls + [UpdateIssue(task.jiraId.value, mappedFields)];
        if a.reply.Err? {
          failure := Some(a.reply.msg);
        }
      } else {
        calls := calls + [CreateIssue(Get(mappedFields, "summary"), Get(mappedFields, "description"), TaskIssueType)];
        match a.reply {
          case Err(msg) => failure := Some(msg);
          case Ok(key) => task := task.(jiraId := Some(key));
        }
      }
      error := Settle(found, task, failure, a);
    }

    /** The `try` tail and `catch` block both steps share: save the entry as
        synced, or as errored when the request or that save failed. */
    method Settle(found: Option<nat>, task: Task, failure: Option<string>, a: Attempt) returns (error: Option<string>)
      requires found.Some? ==> found.value < |ledger|
      modifies this
      ensures (ledger, error) == Settled(old(ledger), found, task, failure, a)
      ensures calls == old(calls) && history == old(history)
    {
      var task := task;
      var failure := failure;
      if failure.None? {
        task := MarkSynced(task, a.at);
        var saved := Save(ledger, found, task, a.saveFault);
        if saved.Ok? {
          ledger := saved.value;
          return None;
        }
        failure := Some(saved.msg);
      }
      task := MarkError(task, failure.value);
      var saved := Save(ledger, found, task, a.errorSaveFault);
      if saved.Ok? {
        ledger := saved.value;
        error := failure;
      } else {
        error := Some(saved.msg);
      }
    }

    /** `createSyncHistory`: the row is refused when the configuration has
        no user id, which the history schema requires. */
    method CreateSyncHistory(direction: Direction, result: SyncResult, clock: int) returns (error: Option<string>)
      modifies this
      ensures config.userId != "" ==> error.None? && history == old(history) + [HistoryRowFor(config.userId, direction, result, clock)]
      ensures config.userId == "" ==> error == Some(UserIdRequired) && history == old(history)
      ensures ledger == old(ledger) && calls == old(calls)
    {
      if config.userId == "" {
        return Some(UserIdRequired);
      }
      error := None;
      var status := if result.success then Success
                    else if result.tasksErrored == result.tasksSynced then Failed
                    else Partial;
      history := history + [HistoryRow(config.userId, Manual, direction, status, result.tasksSynced,
                                       result.tasksErrored, result.errorMessages,
                                       clock - result.duration, clock, result.duration)];
    }
  }
}
