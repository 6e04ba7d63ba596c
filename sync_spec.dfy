/** What one sync step and one directional pass of `SyncService` do, as
    functions of the ledger, the calls made so far and the answers of the
    remote services. The answers the code awaits (a created id, a failed
    request, a failed save, the clock) are inputs: an `Attempt` per item. */
module SyncSpec {
  import opened Wrappers
  import opened Json
  import opened Mapping
  import opened Ledger

  /** A request to Jira or Trello, in the order the service makes them. */
  datatype RemoteCall =
    | GetIssuesByProject
    | GetCardsByBoard
    | GetLists
    | GetIssue(issueKey: string)
    | GetCard(cardId: string)
    | CreateCard(card: CardPatch)
    | UpdateCard(cardId: string, card: CardPatch)
    | CreateIssue(summary: Option<Value>, description: Option<Value>, issueType: string)
    | UpdateIssue(issueKey: string, fields: map<string, Value>)

  /** The outside world's answers while one item is synced: the reply to the
      create or update request (the new card id or issue key when it
      succeeds), the store's fault on the save after success and on the save
      in the error handler, and the time the item is synced. */
  datatype Attempt = Attempt(reply: Result<string>, saveFault: Option<string>,
                             errorSaveFault: Option<string>, at: int)

  /** The state a step changes: the ledger and the log of remote calls. */
  datatype Store = Store(ledger: seq<Task>, calls: seq<RemoteCall>)

  /** After one item: the new store and the error the item was thrown out with. */
  datatype Step = Step(store: Store, error: Option<string>)

  /** After a pass over a prefix of the items: the store and each item's error. */
  datatype Run = Run(store: Store, outcomes: seq<Option<string>>)

  /** The task after the remote request, the requests made and the request's failure. */
  datatype Remote = Remote(task: Task, calls: seq<RemoteCall>, failure: Option<string>)

  /** The issue type every issue created from a card gets. */
  const TaskIssueType := "Task"

  /** What reading `id` of the missing first list throws. */
  const NoListMessage := "Cannot read properties of undefined (reading 'id')"

  /** `mappedCard.idList || defaultList.id`, where `defaultList` is the first
      list; `None` when that would read a list that is not there. */
  function CreateListId(card: CardPatch, lists: seq<TrelloList>): Option<string>
  {
    if card.idList.Some? && card.idList.value != "" then card.idList
    else if lists != [] then Some(lists[0].id)
    else None
  }

  function MarkSynced(t: Task, at: int): Task
  {
    t.(status := "synced", syncStatus := Synced, lastSyncedAt := at, errorMessage := None)
  }

  function MarkError(t: Task, msg: string): Task
  {
    t.(status := "error", syncStatus := Error, errorMessage := Some(msg))
  }

  /** The entry a Jira issue is synced through: the one found by `jiraId`,
      or a new pending one titled with the summary. */
  function JiraTask(ledger: seq<Task>, issue: JiraIssue, at: int): Task
    requires IsJiraIssue(issue)
  {
    match FindOne(ledger, JiraIdField, issue.id)
    case Some(i) => ledger[i]
    case None => NewTask(Some(issue.id), None, Summary(issue), ToTrello, at)
  }

  function TrelloTask(ledger: seq<Task>, card: TrelloCard, at: int): Task
    requires IsTrelloCard(card)
  {
    match FindOne(ledger, TrelloIdField, CardId(card))
    case Some(i) => ledger[i]
    case None => NewTask(None, Some(CardId(card)), CardName(card), ToJira, at)
  }

  /** The request part of `syncJiraIssueToTrello`: update the linked card,
      or create one in the mapped list (else the first list) and link it. */
  function JiraRemote(cfg: Config, task: Task, issue: JiraIssue, lists: seq<TrelloList>, a: Attempt): Remote
    requires IsJiraIssue(issue)
  {
    var card := JiraToTrello(cfg, issue, lists);
    if IsSet(task.trelloId) then
      Remote(task, [UpdateCard(task.trelloId.value, card)], if a.reply.Err? then Some(a.reply.msg) else None)
    else match CreateListId(card, lists)
      case None => Remote(task, [], Some(NoListMessage))
      case Some(listId) =>
        var create := [CreateCard(card.(idList := Some(listId)))];
        match a.reply
        case Err(msg) => Remote(task, create, Some(msg))
        case Ok(cardId) => Remote(task.(trelloId := Some(cardId)), create, None)
  }

  /** The request part of `syncTrelloCardToJira`: update the linked issue
      with all mapped fields, or create a `Task` from the summary and
      description and link its key. */
  function TrelloRemote(cfg: Config, task: Task, card: TrelloCard, lists: seq<TrelloList>, a: Attempt): Remote
    requires IsTrelloCard(card)
  {
    var fields := TrelloToJira(cfg, card, lists);
    if IsSet(task.jiraId) then
      Remote(task, [UpdateIssue(task.jiraId.value, fields)], if a.reply.Err? then Some(a.reply.msg) else None)
    else
      var create := [CreateIssue(Get(fields, "summary"), Get(fields, "description"), TaskIssueType)];
      match a.reply
      case Err(msg) => Remote(task, create, Some(msg))
      case Ok(key) => Remote(task.(jiraId := Some(key)), create, None)
  }

  /** The end of both steps, once the request has left `task` and perhaps a
      `failure`: save the entry as synced; if the request or that save
      failed, save it as errored instead and fail with that error, or with
      the error of this second save when it fails too. */
  function Settled(ledger: seq<Task>, at: Option<nat>, task: Task, failure: Option<string>, a: Attempt): (seq<Task>, Option<string>)
    requires at.Some? ==> at.value < |ledger|
  {
    var synced := MarkSynced(task, a.at);
    var first := Save(ledger, at, synced, a.saveFault);
    if failure.None? && first.Ok? then (first.value, None)
    else
      var (t, msg) := if failure.Some? then (task, failure.value) else (synced, first.msg);
      match Save(ledger, at, MarkError(t, msg), a.errorSaveFault)
      case Ok(saved) => (saved, Some(msg))
      case Err(msg') => (ledger, Some(msg'))
  }

  /** `syncJiraIssueToTrello`. */
  function JiraStep(cfg: Config, st: Store, issue: JiraIssue, lists: seq<TrelloList>, a: Attempt): Step
    requires IsJiraIssue(issue)
  {
    var r := JiraRemote(cfg, JiraTask(st.ledger, issue, a.at), issue, lists, a);
    var (ledger, error) := Settled(st.ledger, FindOne(st.ledger, JiraIdField, issue.id), r.task, r.failure, a);
    Step(Store(ledger, st.calls + r.calls), error)
  }

  /** `syncTrelloCardToJira`. */
  function TrelloStep(cfg: Config, st: Store, card: TrelloCard, lists: seq<TrelloList>, a: Attempt): Step
    requires IsTrelloCard(card)
  {
    var r := TrelloRemote(cfg, TrelloTask(st.ledger, card, a.at), card, lists, a);
    var (ledger, error) := Settled(st.ledger, FindOne(st.ledger, TrelloIdField, CardId(card)), r.task, r.failure, a);
    Step(Store(ledger, st.calls + r.calls), error)
  }

  /** `syncSingleTask`: the Jira way only for `jira_to_trello`, the Trello
      way for anything else; the record is fetched first, then the lists,
      and a failed fetch ends it. */
  function SingleTask(cfg: Config, st: Store, taskId: string, direction: string,
                      issue: Result<JiraIssue>, card: Result<TrelloCard>,
                      lists: Result<seq<TrelloList>>, a: Attempt): Step
    requires issue.Ok? ==> IsJiraIssue(issue.value)
    requires card.Ok? ==> IsTrelloCard(card.value)
  {
    if direction == "jira_to_trello" then
      var fetched := Store(st.ledger, st.calls + [GetIssue(taskId)]);
      if issue.Err? then Step(fetched, Some(issue.msg))
      else
        var listed := Store(st.ledger, fetched.calls + [GetLists]);
        if lists.Err? then Step(listed, Some(lists.msg))
        else JiraStep(cfg, listed, issue.value, lists.value, a)
    else
      var fetched := Store(st.ledger, st.calls + [GetCard(taskId)]);
      if card.Err? then Step(fetched, Some(card.msg))
      else
        var listed := Store(st.ledger, fetched.calls + [GetLists]);
        if lists.Err? then Step(listed, Some(lists.msg))
        else TrelloStep(cfg, listed, card.value, lists.value, a)
  }

  predicate AllJiraIssues(issues: seq<JiraIssue>)
  {
    forall i :: 0 <= i < |issues| ==> IsJiraIssue(issues[i])
  }

  predicate AllTrelloCards(cards: seq<TrelloCard>)
  {
    forall i :: 0 <= i < |cards| ==> IsTrelloCard(cards[i])
  }

  /** The loop of `syncJiraToTrello`: every issue is stepped, in order,
      whatever happened to the ones before it. */
  function JiraRun(cfg: Config, st: Store, issues: seq<JiraIssue>, lists: seq<TrelloList>, attempts: seq<Attempt>): (r: Run)
    requires |attempts| == |issues| && AllJiraIssues(issues)
    ensures |r.outcomes| == |issues|
  {
    if issues == [] then Run(st, [])
    else
      var n := |issues| - 1;
      var before := JiraRun(cfg, st, issues[..n], lists, attempts[..n]);
      var step := JiraStep(cfg, before.store, issues[n], lists, attempts[n]);
      Run(step.store, before.outcomes + [step.error])
  }

  /** The loop of `syncTrelloToJira`. */
  function TrelloRun(cfg: Config, st: Store, cards: seq<TrelloCard>, lists: seq<TrelloList>, attempts: seq<Attempt>): (r: Run)
    requires |attempts| == |cards| && AllTrelloCards(cards)
    ensures |r.outcomes| == |cards|
  {
    if cards == [] then Run(st, [])
    else
      var n := |cards| - 1;
      var before := TrelloRun(cfg, st, cards[..n], lists, attempts[..n]);
      var step := TrelloStep(cfg, before.store, cards[n], lists, attempts[n]);
      Run(step.store, before.outcomes + [step.error])
  }

  /** One more issue extends the run by its step. */
  lemma JiraRunExtend(cfg: Config, st: Store, issues: seq<JiraIssue>, lists: seq<TrelloList>, attempts: seq<Attempt>, i: nat)
    requires i < |issues| && |attempts| == |issues| && AllJiraIssues(issues)
    ensures var before := JiraRun(cfg, st, issues[..i], lists, attempts[..i]);
            var step := JiraStep(cfg, before.store, issues[i], lists, attempts[i]);
            JiraRun(cfg, st, issues[..i + 1], lists, attempts[..i + 1]) == Run(step.store, before.outcomes + [step.error])
  {
    assert issues[..i + 1][..i] == issues[..i] && attempts[..i + 1][..i] == attempts[..i];
  }

  lemma TrelloRunExtend(cfg: Config, st: Store, cards: seq<TrelloCard>, lists: seq<TrelloList>, attempts: seq<Attempt>, i: nat)
    requires i < |cards| && |attempts| == |cards| && AllTrelloCards(cards)
    ensures var before := TrelloRun(cfg, st, cards[..i], lists, attempts[..i]);
            var step := TrelloStep(cfg, before.store, cards[i], lists, attempts[i]);
            TrelloRun(cfg, st, cards[..i + 1], lists, attempts[..i + 1]) == Run(step.store, before.outcomes + [step.error])
  {
    assert cards[..i + 1][..i] == cards[..i] && attempts[..i + 1][..i] == attempts[..i];
  }

  // ---------------------------------------------------------------------------
  // The pass result

  /** `tasksSynced`: the items that finished without error. */
  function SyncedCount(outcomes: seq<Option<string>>): nat
  {
    if outcomes == [] then 0
    else SyncedCount(outcomes[..|outcomes| - 1]) + (if outcomes[|outcomes| - 1].None? then 1 else 0)
  }

  /** `tasksErrored`: the items that were thrown out with an error. */
  function ErroredCount(outcomes: seq<Option<string>>): nat
  {
    if outcomes == [] then 0
    else ErroredCount(outcomes[..|outcomes| - 1]) + (if outcomes[|outcomes| - 1].Some? then 1 else 0)
  }

  /** `errorMessages`: one line per failed item, naming it by `labels`, in
      the order the items were processed. */
  function ErrorMessages(prefix: string, labels: seq<string>, outcomes: seq<Option<string>>): seq<string>
    requires |labels| == |outcomes|
  {
    if outcomes == [] then []
    else
      var n := |outcomes| - 1;
      ErrorMessages(prefix, labels[..n], outcomes[..n]) +
      (if outcomes[n].Some? then [prefix + labels[n] + ": " + outcomes[n].value] else [])
  }

  /** The three counters of a pass. */
  datatype Tally = Tally(synced: nat, errored: nat, messages: seq<string>)

  function TallyOf(prefix: string, labels: seq<string>, outcomes: seq<Option<string>>): Tally
    requires |labels| == |outcomes|
  {
    Tally(SyncedCount(outcomes), ErroredCount(outcomes), ErrorMessages(prefix, labels, outcomes))
  }

  lemma SliceExtend<T>(s: seq<T>, i: nat)
    requires i < |s|
    ensures s[..i + 1] == s[..i] + [s[i]]
  {
  }

  /** One more outcome moves exactly one counter, and adds a message when it
      is an error. */
  lemma TallyExtend(prefix: string, labels: seq<string>, outcomes: seq<Option<string>>, name: string, e: Option<string>)
    requires |labels| == |outcomes|
    ensures TallyOf(prefix, labels + [name], outcomes + [e]) ==
            var t := TallyOf(prefix, labels, outcomes);
            if e.None? then t.(synced := t.synced + 1)
            else t.(errored := t.errored + 1, messages := t.messages + [prefix + name + ": " + e.value])
  {
    assert (outcomes + [e])[..|outcomes|] == outcomes;
    assert (labels + [name])[..|labels|] == labels;
  }

  const IssuePrefix := "Error syncing issue "
  const CardPrefix := "Error syncing card "

  function IssueKeys(issues: seq<JiraIssue>): (keys: seq<string>)
    ensures |keys| == |issues| && forall i :: 0 <= i < |issues| ==> keys[i] == issues[i].key
  {
    seq(|issues|, i requires 0 <= i < |issues| => issues[i].key)
  }

  function CardIds(cards: seq<TrelloCard>): (ids: seq<string>)
    requires AllTrelloCards(cards)
    ensures |ids| == |cards| && forall i :: 0 <= i < |cards| ==> ids[i] == CardId(cards[i])
  {
    seq(|cards|, i requires 0 <= i < |cards| && IsTrelloCard(cards[i]) => CardId(cards[i]))
  }

  /** `SyncResult`. */
  datatype SyncResult = SyncResult(success: bool, tasksSynced: nat, tasksErrored: nat,
                                   errorMessages: seq<string>, duration: int)

  /** The result of a pass whose items ended with `outcomes`. */
  function PassResult(prefix: string, labels: seq<string>, outcomes: seq<Option<string>>, duration: int): SyncResult
    requires |labels| == |outcomes|
  {
    SyncResult(ErroredCount(outcomes) == 0, SyncedCount(outcomes), ErroredCount(outcomes),
               ErrorMessages(prefix, labels, outcomes), duration)
  }

  // ---------------------------------------------------------------------------
  // The history row

  datatype HistoryStatus = Success | Partial | Failed

  datatype SyncType = Manual | Automatic

  /** A `SyncHistory` document. */
  datatype HistoryRow = HistoryRow(
    userId: string, syncType: SyncType, syncDirection: Direction, status: HistoryStatus,
    tasksSynced: nat, tasksErrored: nat, errorMessages: seq<string>,
    startTime: int, endTime: int, duration: int)

  /** The status rule of `createSyncHistory`, as written: `failed` when as
      many items failed as succeeded, `partial` otherwise. */
  function StatusOf(r: SyncResult): HistoryStatus
  {
    if r.success then Success
    else if r.tasksErrored == r.tasksSynced then Failed
    else Partial
  }

  /** The row `createSyncHistory` saves at time `clock`. */
  function HistoryRowFor(userId: string, direction: Direction, r: SyncResult, clock: int): HistoryRow
  {
    HistoryRow(userId, Manual, direction, StatusOf(r), r.tasksSynced, r.tasksErrored,
               r.errorMessages, clock - r.duration, clock, r.duration)
  }

  const UserIdRequired := "SyncHistory validation failed: userId: Path `userId` is required."
}
