/** Properties of the sync passes: what the counters and the history row
    say about the items, what the ledger keeps, and what a second pass over
    already linked issues asks of Trello. */
module SyncProperties {
  import opened Wrappers
  import opened Json
  import opened Mapping
  import opened Ledger
  import opened SyncSpec

  // ---------------------------------------------------------------------------
  // Counters and messages

  /** Every item is counted exactly once, as synced or as errored. */
  lemma {:induction false} CountsAddUp(outcomes: seq<Option<string>>)
    ensures SyncedCount(outcomes) + ErroredCount(outcomes) == |outcomes|
  {
    if outcomes != [] {
      CountsAddUp(outcomes[..|outcomes| - 1]);
    }
  }

  /** No errored item is the same as no item thrown out with an error. */
  lemma {:induction false} NoErrorsIffAllSynced(outcomes: seq<Option<string>>)
    ensures ErroredCount(outcomes) == 0 <==> forall i :: 0 <= i < |outcomes| ==> outcomes[i].None?
  {
    if outcomes != [] {
      var n := |outcomes| - 1;
      NoErrorsIffAllSynced(outcomes[..n]);
      if ErroredCount(outcomes) == 0 {
        forall i | 0 <= i < |outcomes| ensures outcomes[i].None? {
          if i < n { assert outcomes[..n][i] == outcomes[i]; }
        }
      }
      if forall i :: 0 <= i < |outcomes| ==> outcomes[i].None? {
        forall i | 0 <= i < n ensures outcomes[..n][i].None? {
          assert outcomes[..n][i] == outcomes[i];
        }
      }
    }
  }

  /** The positions of the errored items, in processing order. */
  function FailedIndices(outcomes: seq<Option<string>>): (r: seq<nat>)
    ensures |r| == ErroredCount(outcomes)
    ensures forall k :: 0 <= k < |r| ==> r[k] < |outcomes| && outcomes[r[k]].Some?
    ensures forall k, l :: 0 <= k < l < |r| ==> r[k] < r[l]
    ensures forall i :: 0 <= i < |outcomes| && outcomes[i].Some? ==> i in r
  {
    if outcomes == [] then []
    else
      var n := |outcomes| - 1;
      var before := FailedIndices(outcomes[..n]);
      assert forall i :: 0 <= i < n ==> outcomes[..n][i] == outcomes[i];
      if outcomes[n].Some? then before + [n] else before
  }

  /** `errorMessages` holds one line per errored item, in processing order,
      naming the item and carrying its error. */
  lemma {:induction false} MessagesFollowFailures(prefix: string, labels: seq<string>, outcomes: seq<Option<string>>)
    requires |labels| == |outcomes|
    ensures var ms := ErrorMessages(prefix, labels, outcomes);
            var fs := FailedIndices(outcomes);
            && |ms| == |fs|
            && forall k :: 0 <= k < |fs| ==> ms[k] == prefix + labels[fs[k]] + ": " + outcomes[fs[k]].value
  {
    if outcomes != [] {
      var n := |outcomes| - 1;
      MessagesFollowFailures(prefix, labels[..n], outcomes[..n]);
      var fs := FailedIndices(outcomes[..n]);
      forall k | 0 <= k < |fs|
        ensures labels[..n][fs[k]] == labels[fs[k]] && outcomes[..n][fs[k]] == outcomes[fs[k]]
      {
      }
    }
  }

  /** What a pass reports: every item counted once, one message per error,
      and success exactly when no item failed. */
  lemma PassResultMeaning(prefix: string, labels: seq<string>, outcomes: seq<Option<string>>, duration: int)
    requires |labels| == |outcomes|
    ensures var r := PassResult(prefix, labels, outcomes, duration);
            && r.tasksSynced + r.tasksErrored == |outcomes|
            && |r.errorMessages| == r.tasksErrored
            && (r.success <==> forall i :: 0 <= i < |outcomes| ==> outcomes[i].None?)
  {
    CountsAddUp(outcomes);
    NoErrorsIffAllSynced(outcomes);
    MessagesFollowFailures(prefix, labels, outcomes);
  }

  // ---------------------------------------------------------------------------
  // The history status

  /** The status saved for a pass: `success` when nothing failed, `failed`
      when as many items failed as succeeded, `partial` otherwise. */
  lemma HistoryStatusOfPass(prefix: string, labels: seq<string>, outcomes: seq<Option<string>>, duration: int)
    requires |labels| == |outcomes|
    ensures var s := StatusOf(PassResult(prefix, labels, outcomes, duration));
            && (s == Success <==> forall i :: 0 <= i < |outcomes| ==> outcomes[i].None?)
            && (s == Failed <==> ErroredCount(outcomes) > 0 && ErroredCount(outcomes) == SyncedCount(outcomes))
            && (s == Partial <==> ErroredCount(outcomes) > 0 && ErroredCount(outcomes) != SyncedCount(outcomes))
  {
    NoErrorsIffAllSynced(outcomes);
  }

  /** A pass in which every one of its items failed is recorded as
      `partial`, not `failed`. */
  lemma AllFailedIsPartial(prefix: string, labels: seq<string>, outcomes: seq<Option<string>>, duration: int)
    requires |labels| == |outcomes| && |outcomes| > 0
    requires forall i :: 0 <= i < |outcomes| ==> outcomes[i].Some?
    ensures StatusOf(PassResult(prefix, labels, outcomes, duration)) == Partial
  {
    CountsAddUp(outcomes);
    var fs := FailedIndices(outcomes);
    assert 0 in fs;
    NoErrorsIffAllSynced(outcomes);
    SyncedNone(outcomes);
  }

  lemma {:induction false} SyncedNone(outcomes: seq<Option<string>>)
    requires forall i :: 0 <= i < |outcomes| ==> outcomes[i].Some?
    ensures SyncedCount(outcomes) == 0
  {
    if outcomes != [] {
      var n := |outcomes| - 1;
      assert forall i :: 0 <= i < n ==> outcomes[..n][i] == outcomes[i];
      SyncedNone(outcomes[..n]);
    }
  }

  // ---------------------------------------------------------------------------
  // One step on the ledger

  /** The end of a step writes at most the one entry it synced: as synced
      when neither the request nor the save failed; otherwise the error
      handler saves it as errored with the request's error (or, when the
      request succeeded, the first save's error), and the step fails with
      that message; when this second save fails too, nothing is written and
      the step fails with the second save's error. */
  lemma SettledWritesOneEntry(ledger: seq<Task>, at: Option<nat>, task: Task, failure: Option<string>, a: Attempt)
    requires at.Some? ==> at.value < |ledger|
    ensures var (saved, error) := Settled(ledger, at, task, failure, a);
            && (error.None? <==> failure.None? && Save(ledger, at, MarkSynced(task, a.at), a.saveFault).Ok?)
            && (error.None? ==> saved == Put(ledger, at, MarkSynced(task, a.at)))
    ensures var (saved, error) := Settled(ledger, at, task, failure, a);
            var first := Save(ledger, at, MarkSynced(task, a.at), a.saveFault);
            failure.Some? || first.Err? ==>
              var t := if failure.Some? then task else MarkSynced(task, a.at);
              var msg := if failure.Some? then failure.value else first.msg;
              var second := Save(ledger, at, MarkError(t, msg), a.errorSaveFault);
              && (second.Ok? ==> saved == Put(ledger, at, MarkError(t, msg)) && error == Some(msg))
              && (second.Err? ==> saved == ledger && error == Some(second.msg))
  {
  }

  /** Entry `k` links Jira issue `id` to a card. */
  predicate LinkedAt(ledger: seq<Task>, id: string, k: int)
  {
    0 <= k < |ledger| && ledger[k].jiraId == Some(id) && IsSet(ledger[k].trelloId)
  }

  /** Some entry links Jira issue `id` to a card. */
  predicate Linked(ledger: seq<Task>, id: string)
  {
    exists k :: 0 <= k < |ledger| && LinkedAt(ledger, id, k)
  }

  /** `after` keeps every entry of `before`, with its `jiraId`, and with its
      `trelloId` once that is set. */
  predicate KeepsLinks(before: seq<Task>, after: seq<Task>)
  {
    && |before| <= |after|
    && forall k :: 0 <= k < |before| ==>
         after[k].jiraId == before[k].jiraId && (IsSet(before[k].trelloId) ==> after[k].trelloId == before[k].trelloId)
  }

  lemma LinkedKept(before: seq<Task>, after: seq<Task>, id: string)
    requires KeepsLinks(before, after) && Linked(before, id)
    ensures Linked(after, id)
  {
    var k :| 0 <= k < |before| && LinkedAt(before, id, k);
    assert LinkedAt(after, id, k);
  }

  /** A Jira step never unlinks or re-keys an entry. */
  lemma JiraStepKeepsLinks(cfg: Config, st: Store, issue: JiraIssue, lists: seq<TrelloList>, a: Attempt)
    requires IsJiraIssue(issue)
    ensures KeepsLinks(st.ledger, JiraStep(cfg, st, issue, lists, a).store.ledger)
  {
    var found := FindOne(st.ledger, JiraIdField, issue.id);
    var task := JiraTask(st.ledger, issue, a.at);
    var r := JiraRemote(cfg, task, issue, lists, a);
    assert r.task.jiraId == task.jiraId;
    assert IsSet(task.trelloId) ==> r.task.trelloId == task.trelloId;
    SettledWritesOneEntry(st.ledger, found, r.task, r.failure, a);
  }

  /** A create is never answered with an empty card id or issue key. */
  predicate CreatedIdsSet(attempts: seq<Attempt>)
  {
    forall i :: 0 <= i < |attempts| ==> attempts[i].reply.Ok? ==> attempts[i].reply.value != ""
  }

  lemma CreatedIdsSetPrefix(attempts: seq<Attempt>, n: nat)
    requires n <= |attempts| && CreatedIdsSet(attempts)
    ensures CreatedIdsSet(attempts[..n])
  {
    forall i | 0 <= i < n ensures attempts[..n][i] == attempts[i] {
    }
  }

  /** An issue whose step ends without error is linked to a card afterwards. */
  lemma JiraStepLinks(cfg: Config, st: Store, issue: JiraIssue, lists: seq<TrelloList>, a: Attempt)
    requires IsJiraIssue(issue) && (a.reply.Ok? ==> a.reply.value != "")
    ensures JiraStep(cfg, st, issue, lists, a).error.None? ==> Linked(JiraStep(cfg, st, issue, lists, a).store.ledger, issue.id)
  {
    var found := FindOne(st.ledger, JiraIdField, issue.id);
    var r := JiraRemote(cfg, JiraTask(st.ledger, issue, a.at), issue, lists, a);
    SettledWritesOneEntry(st.ledger, found, r.task, r.failure, a);
    var k := if found.Some? then found.value else |st.ledger|;
    if JiraStep(cfg, st, issue, lists, a).error.None? {
      assert LinkedAt(JiraStep(cfg, st, issue, lists, a).store.ledger, issue.id, k);
    }
  }

  /** Entry `k` links Trello card `id` to an issue. */
  predicate CardLinkedAt(ledger: seq<Task>, id: string, k: int)
  {
    0 <= k < |ledger| && ledger[k].trelloId == Some(id) && IsSet(ledger[k].jiraId)
  }

  /** Some entry links Trello card `id` to an issue. */
  predicate CardLinked(ledger: seq<Task>, id: string)
  {
    exists k :: 0 <= k < |ledger| && CardLinkedAt(ledger, id, k)
  }

  /** A card whose step ends without error is linked to an issue afterwards. */
  lemma TrelloStepLinks(cfg: Config, st: Store, card: TrelloCard, lists: seq<TrelloList>, a: Attempt)
    requires IsTrelloCard(card) && (a.reply.Ok? ==> a.reply.value != "")
    ensures var s := TrelloStep(cfg, st, card, lists, a);
            s.error.None? ==> CardLinked(s.store.ledger, CardId(card))
  {
    var found := FindOne(st.ledger, TrelloIdField, CardId(card));
    var r := TrelloRemote(cfg, TrelloTask(st.ledger, card, a.at), card, lists, a);
    SettledWritesOneEntry(st.ledger, found, r.task, r.failure, a);
    var k := if found.Some? then found.value else |st.ledger|;
    if TrelloStep(cfg, st, card, lists, a).error.None? {
      assert CardLinkedAt(TrelloStep(cfg, st, card, lists, a).store.ledger, CardId(card), k);
    }
  }

  /** In a valid ledger the entry linking an issue is the one `findOne`
      returns, so the step updates that card and creates none. */
  lemma LinkedStepUpdates(cfg: Config, st: Store, issue: JiraIssue, lists: seq<TrelloList>, a: Attempt)
    requires IsJiraIssue(issue) && Valid(st.ledger) && Linked(st.ledger, issue.id)
    ensures var task := JiraTask(st.ledger, issue, a.at);
            && IsSet(task.trelloId)
            && JiraStep(cfg, st, issue, lists, a).store.calls ==
               st.calls + [UpdateCard(task.trelloId.value, JiraToTrello(cfg, issue, lists))]
  {
    var k :| 0 <= k < |st.ledger| && LinkedAt(st.ledger, issue.id, k);
    var found := FindOne(st.ledger, JiraIdField, issue.id);
    assert found.Some?;
    if found.value != k {
      assert Collide(st.ledger, JiraIdField, found.value, k);
    }
  }

  lemma JiraStepKeepsValid(cfg: Config, st: Store, issue: JiraIssue, lists: seq<TrelloList>, a: Attempt)
    requires IsJiraIssue(issue) && Valid(st.ledger)
    ensures Valid(JiraStep(cfg, st, issue, lists, a).store.ledger)
  {
    var found := FindOne(st.ledger, JiraIdField, issue.id);
    var r := JiraRemote(cfg, JiraTask(st.ledger, issue, a.at), issue, lists, a);
    SettledWritesOneEntry(st.ledger, found, r.task, r.failure, a);
  }

  // ---------------------------------------------------------------------------
  // A pass over the issues

  /** The schema and the unique indexes hold after a whole pass. */
  lemma {:induction false} JiraRunKeepsValid(cfg: Config, st: Store, issues: seq<JiraIssue>, lists: seq<TrelloList>, attempts: seq<Attempt>)
    requires |attempts| == |issues| && AllJiraIssues(issues) && Valid(st.ledger)
    ensures Valid(JiraRun(cfg, st, issues, lists, attempts).store.ledger)
  {
    if issues != [] {
      var n := |issues| - 1;
      JiraRunKeepsValid(cfg, st, issues[..n], lists, attempts[..n]);
      JiraStepKeepsValid(cfg, JiraRun(cfg, st, issues[..n], lists, attempts[..n]).store, issues[n], lists, attempts[n]);
    }
  }

  /** A pass never unlinks or re-keys an entry. */
  lemma {:induction false} JiraRunKeepsLinks(cfg: Config, st: Store, issues: seq<JiraIssue>, lists: seq<TrelloList>, attempts: seq<Attempt>)
    requires |attempts| == |issues| && AllJiraIssues(issues)
    ensures KeepsLinks(st.ledger, JiraRun(cfg, st, issues, lists, attempts).store.ledger)
  {
    if issues != [] {
      var n := |issues| - 1;
      JiraRunKeepsLinks(cfg, st, issues[..n], lists, attempts[..n]);
      JiraStepKeepsLinks(cfg, JiraRun(cfg, st, issues[..n], lists, attempts[..n]).store, issues[n], lists, attempts[n]);
    }
  }

  /** What the last issue of a pass adds to the pass over the others. */
  lemma JiraRunLast(cfg: Config, st: Store, issues: seq<JiraIssue>, lists: seq<TrelloList>, attempts: seq<Attempt>)
    requires |attempts| == |issues| && AllJiraIssues(issues) && issues != []
    ensures var n := |issues| - 1;
            var before := JiraRun(cfg, st, issues[..n], lists, attempts[..n]);
            var after := JiraRun(cfg, st, issues, lists, attempts);
            && KeepsLinks(before.store.ledger, after.store.ledger)
            && after.outcomes[..n] == before.outcomes
            && (CreatedIdsSet(attempts) && after.outcomes[n].None? ==> Linked(after.store.ledger, issues[n].id))
            && (Valid(before.store.ledger) ==> Valid(after.store.ledger))
            && (Valid(before.store.ledger) && Linked(before.store.ledger, issues[n].id) ==>
                  && |after.store.calls| == |before.store.calls| + 1
                  && after.store.calls[..|before.store.calls|] == before.store.calls
                  && after.store.calls[|before.store.calls|].UpdateCard?)
  {
    var n := |issues| - 1;
    var before := JiraRun(cfg, st, issues[..n], lists, attempts[..n]);
    var a := attempts[n];
    JiraStepKeepsLinks(cfg, before.store, issues[n], lists, a);
    if CreatedIdsSet(attempts) {
      JiraStepLinks(cfg, before.store, issues[n], lists, a);
    }
    if Valid(before.store.ledger) {
      JiraStepKeepsValid(cfg, before.store, issues[n], lists, a);
      if Linked(before.store.ledger, issues[n].id) {
        LinkedStepUpdates(cfg, before.store, issues[n], lists, a);
      }
    }
  }

  /** After a pass in which no issue failed, every issue is linked to a card. */
  lemma {:induction false} CleanPassLinksAll(cfg: Config, st: Store, issues: seq<JiraIssue>, lists: seq<TrelloList>, attempts: seq<Attempt>)
    requires |attempts| == |issues| && AllJiraIssues(issues) && CreatedIdsSet(attempts)
    requires var r := JiraRun(cfg, st, issues, lists, attempts);
             forall i :: 0 <= i < |r.outcomes| ==> r.outcomes[i].None?
    ensures forall k :: 0 <= k < |issues| ==> Linked(JiraRun(cfg, st, issues, lists, attempts).store.ledger, issues[k].id)
  {
    if issues != [] {
      var n := |issues| - 1;
      var before := JiraRun(cfg, st, issues[..n], lists, attempts[..n]);
      var after := JiraRun(cfg, st, issues, lists, attempts);
      JiraRunLast(cfg, st, issues, lists, attempts);
      assert forall i :: 0 <= i < n ==> before.outcomes[i] == after.outcomes[..n][i];
      CreatedIdsSetPrefix(attempts, n);
      CleanPassLinksAll(cfg, st, issues[..n], lists, attempts[..n]);
      assert Linked(after.store.ledger, issues[n].id) by {
        assert after.outcomes[n].None?;
      }
      LinksCarried(before.store.ledger, after.store.ledger, issues[..n]);
      LinkedToLast(after.store.ledger, issues[..n], issues);
    }
  }

  lemma LinksCarried(before: seq<Task>, after: seq<Task>, issues: seq<JiraIssue>)
    requires KeepsLinks(before, after)
    requires forall k :: 0 <= k < |issues| ==> Linked(before, issues[k].id)
    ensures forall k :: 0 <= k < |issues| ==> Linked(after, issues[k].id)
  {
    forall k | 0 <= k < |issues| ensures Linked(after, issues[k].id) {
      LinkedKept(before, after, issues[k].id);
    }
  }

  lemma LinkedToLast(ledger: seq<Task>, prefix: seq<JiraIssue>, issues: seq<JiraIssue>)
    requires |issues| == |prefix| + 1 && prefix == issues[..|prefix|]
    requires Linked(ledger, issues[|prefix|].id)
    requires forall k :: 0 <= k < |prefix| ==> Linked(ledger, prefix[k].id)
    ensures forall k :: 0 <= k < |issues| ==> Linked(ledger, issues[k].id)
  {
    forall k | 0 <= k < |prefix| ensures Linked(ledger, issues[k].id) {
      assert prefix[k] == issues[k];
    }
  }

  /** A pass over issues that are all linked only updates cards: one
      `UpdateCard` per issue, and no `CreateCard`. */
  lemma {:induction false} LinkedPassOnlyUpdates(cfg: Config, st: Store, issues: seq<JiraIssue>, lists: seq<TrelloList>, attempts: seq<Attempt>)
    requires |attempts| == |issues| && AllJiraIssues(issues) && Valid(st.ledger)
    requires forall k :: 0 <= k < |issues| ==> Linked(st.ledger, issues[k].id)
    ensures var calls := JiraRun(cfg, st, issues, lists, attempts).store.calls;
            && |calls| == |st.calls| + |issues|
            && calls[..|st.calls|] == st.calls
            && forall j :: |st.calls| <= j < |calls| ==> calls[j].UpdateCard?
  {
    if issues != [] {
      var n := |issues| - 1;
      var before := JiraRun(cfg, st, issues[..n], lists, attempts[..n]);
      assert forall k :: 0 <= k < n ==> issues[..n][k] == issues[k];
      LinkedPassOnlyUpdates(cfg, st, issues[..n], lists, attempts[..n]);
      JiraRunKeepsValid(cfg, st, issues[..n], lists, attempts[..n]);
      JiraRunKeepsLinks(cfg, st, issues[..n], lists, attempts[..n]);
      LinkedKept(st.ledger, before.store.ledger, issues[n].id);
      JiraRunLast(cfg, st, issues, lists, attempts);
      UpdatesExtend(st.calls, before.store.calls, JiraRun(cfg, st, issues, lists, attempts).store.calls);
    }
  }

  lemma UpdatesExtend(start: seq<RemoteCall>, mid: seq<RemoteCall>, end: seq<RemoteCall>)
    requires |start| <= |mid| && mid[..|start|] == start
    requires forall j :: |start| <= j < |mid| ==> mid[j].UpdateCard?
    requires |end| == |mid| + 1 && end[..|mid|] == mid && end[|mid|].UpdateCard?
    ensures end[..|start|] == start
    ensures forall j :: |start| <= j < |end| ==> end[j].UpdateCard?
  {
    assert forall j :: |start| <= j < |mid| ==> end[j] == mid[j] by {
      forall j | |start| <= j < |mid| ensures end[j] == mid[j] {
        assert end[..|mid|][j] == end[j];
      }
    }
  }

  /** Running the Jira-to-Trello pass again after a pass in which no issue
      failed creates no card: every issue is synced by updating its card. */
  lemma RepeatedPassOnlyUpdates(cfg: Config, st: Store, issues: seq<JiraIssue>, lists: seq<TrelloList>,
                                first: seq<Attempt>, second: seq<Attempt>)
    requires |first| == |issues| && |second| == |issues| && AllJiraIssues(issues)
    requires Valid(st.ledger) && CreatedIdsSet(first)
    requires var r := JiraRun(cfg, st, issues, lists, first);
             forall i :: 0 <= i < |r.outcomes| ==> r.outcomes[i].None?
    ensures var once := JiraRun(cfg, st, issues, lists, first).store;
            var twice := JiraRun(cfg, once, issues, lists, second).store;
            forall j :: |once.calls| <= j < |twice.calls| ==> !twice.calls[j].CreateCard?
  {
    var once := JiraRun(cfg, st, issues, lists, first).store;
    CleanPassLinksAll(cfg, st, issues, lists, first);
    JiraRunKeepsValid(cfg, st, issues, lists, first);
    LinkedPassOnlyUpdates(cfg, once, issues, lists, second);
  }

  // ---------------------------------------------------------------------------
  // Failures and the Trello direction

  /** A card created for a new issue stays linked when the save after the
      creation fails: the entry is saved as errored with the new card's id,
      so the next pass updates that card rather than creating another. */
  lemma CreatedCardKeptOnFailedSave(cfg: Config, st: Store, issue: JiraIssue, lists: seq<TrelloList>, a: Attempt)
    requires IsJiraIssue(issue) && Summary(issue) != ""
    requires FindOne(st.ledger, JiraIdField, issue.id).None?
    requires CreateListId(JiraToTrello(cfg, issue, lists), lists).Some?
    requires a.reply.Ok? && a.saveFault.Some? && a.errorSaveFault.None?
    requires forall j :: 0 <= j < |st.ledger| ==> st.ledger[j].trelloId != Some(a.reply.value)
    ensures var s := JiraStep(cfg, st, issue, lists, a);
            && s.error == a.saveFault
            && |s.store.calls| == |st.calls| + 1 && s.store.calls[|st.calls|].CreateCard?
            && |s.store.ledger| == |st.ledger| + 1
            && s.store.ledger[..|st.ledger|] == st.ledger
            && var e := s.store.ledger[|st.ledger|];
               e.jiraId == Some(issue.id) && e.trelloId == Some(a.reply.value) &&
               e.syncStatus == Error && e.errorMessage == a.saveFault
  {
    var found := FindOne(st.ledger, JiraIdField, issue.id);
    var r := JiraRemote(cfg, JiraTask(st.ledger, issue, a.at), issue, lists, a);
    assert r.task.trelloId == Some(a.reply.value) && r.task.jiraId == Some(issue.id) && r.failure.None?;
    var t := MarkError(MarkSynced(r.task, a.at), a.saveFault.value);
    assert !Clash(st.ledger, None, t, JiraIdField);
    assert !Clash(st.ledger, None, t, TrelloIdField);
    SettledWritesOneEntry(st.ledger, found, r.task, r.failure, a);
  }

  /** The Trello counterpart: an issue created for a new card stays linked
      when the save after the creation fails, since the entry is saved as
      errored with the new issue's key. */
  lemma CreatedIssueKeptOnFailedSave(cfg: Config, st: Store, card: TrelloCard, lists: seq<TrelloList>, a: Attempt)
    requires IsTrelloCard(card) && CardName(card) != ""
    requires FindOne(st.ledger, TrelloIdField, CardId(card)).None?
    requires a.reply.Ok? && a.saveFault.Some? && a.errorSaveFault.None?
    requires forall j :: 0 <= j < |st.ledger| ==> st.ledger[j].jiraId != Some(a.reply.value)
    ensures var s := TrelloStep(cfg, st, card, lists, a);
            && s.error == a.saveFault
            && |s.store.calls| == |st.calls| + 1 && s.store.calls[|st.calls|].CreateIssue?
            && |s.store.ledger| == |st.ledger| + 1
            && s.store.ledger[..|st.ledger|] == st.ledger
            && var e := s.store.ledger[|st.ledger|];
               e.trelloId == Some(CardId(card)) && e.jiraId == Some(a.reply.value) &&
               e.syncStatus == Error && e.errorMessage == a.saveFault
  {
    var found := FindOne(st.ledger, TrelloIdField, CardId(card));
    var r := TrelloRemote(cfg, TrelloTask(st.ledger, card, a.at), card, lists, a);
    assert r.task.jiraId == Some(a.reply.value) && r.task.trelloId == Some(CardId(card)) && r.failure.None?;
    var t := MarkError(MarkSynced(r.task, a.at), a.saveFault.value);
    assert !Clash(st.ledger, None, t, JiraIdField);
    assert !Clash(st.ledger, None, t, TrelloIdField);
    SettledWritesOneEntry(st.ledger, found, r.task, r.failure, a);
  }

  /** A card seen for the first time is linked to the issue created for it
      through the issue's key, the only thing the create request returns;
      only the summary, the description and the issue type `Task` are sent. */
  lemma TrelloCreateLinksKey(cfg: Config, st: Store, card: TrelloCard, lists: seq<TrelloList>, a: Attempt)
    requires IsTrelloCard(card) && CardName(card) != ""
    requires FindOne(st.ledger, TrelloIdField, CardId(card)).None?
    requires a.reply.Ok? && a.saveFault.None?
    requires forall j :: 0 <= j < |st.ledger| ==> st.ledger[j].jiraId != Some(a.reply.value)
    ensures var s := TrelloStep(cfg, st, card, lists, a);
            var fields := TrelloToJira(cfg, card, lists);
            && s.error.None?
            && s.store.calls == st.calls + [CreateIssue(Get(fields, "summary"), Get(fields, "description"), "Task")]
            && |s.store.ledger| == |st.ledger| + 1
            && s.store.ledger[..|st.ledger|] == st.ledger
            && var e := s.store.ledger[|st.ledger|];
               e.jiraId == Some(a.reply.value) && e.trelloId == Some(CardId(card)) &&
               e.syncStatus == Synced && e.syncDirection == ToJira
  {
    var r := TrelloRemote(cfg, TrelloTask(st.ledger, card, a.at), card, lists, a);
    var t := MarkSynced(r.task, a.at);
    assert t.jiraId == Some(a.reply.value) && t.trelloId == Some(CardId(card));
    assert !Clash(st.ledger, None, t, JiraIdField);
    assert !Clash(st.ledger, None, t, TrelloIdField);
  }

  /** The Jira direction looks entries up by the issue's id while the
      Trello direction links the issue's key: after a card creates issue
      `key`, a Jira pass over that issue, whose id is not its key, does not
      find the link and creates a second card. */
  lemma KeyLinkMissedById(cfg: Config, st: Store, card: TrelloCard, lists: seq<TrelloList>, a: Attempt,
                          issue: JiraIssue, b: Attempt)
    requires IsTrelloCard(card) && CardName(card) != ""
    requires FindOne(st.ledger, TrelloIdField, CardId(card)).None?
    requires a.reply.Ok? && a.saveFault.None?
    requires forall j :: 0 <= j < |st.ledger| ==> st.ledger[j].jiraId != Some(a.reply.value)
    requires IsJiraIssue(issue) && issue.key == a.reply.value && issue.id != issue.key
    requires forall j :: 0 <= j < |st.ledger| ==> st.ledger[j].jiraId != Some(issue.id)
    requires lists != []
    ensures var linked := TrelloStep(cfg, st, card, lists, a).store;
            var s := JiraStep(cfg, linked, issue, lists, b);
            |s.store.calls| == |linked.calls| + 1 && s.store.calls[|linked.calls|].CreateCard?
  {
    TrelloCreateLinksKey(cfg, st, card, lists, a);
    var linked := TrelloStep(cfg, st, card, lists, a).store;
    forall j | 0 <= j < |linked.ledger| ensures linked.ledger[j].jiraId != Some(issue.id) {
      if j < |st.ledger| {
        assert linked.ledger[j] == linked.ledger[..|st.ledger|][j];
      }
    }
    UnknownIssueCreates(cfg, linked, issue, lists, b);
  }

  /** An issue no entry carries the id of gets a new card. */
  lemma UnknownIssueCreates(cfg: Config, st: Store, issue: JiraIssue, lists: seq<TrelloList>, b: Attempt)
    requires IsJiraIssue(issue) && lists != []
    requires forall j :: 0 <= j < |st.ledger| ==> st.ledger[j].jiraId != Some(issue.id)
    ensures var s := JiraStep(cfg, st, issue, lists, b);
            |s.store.calls| == |st.calls| + 1 && s.store.calls[|st.calls|].CreateCard?
  {
    assert FindOne(st.ledger, JiraIdField, issue.id).None?;
  }

  lemma TrelloStepKeepsValid(cfg: Config, st: Store, card: TrelloCard, lists: seq<TrelloList>, a: Attempt)
    requires IsTrelloCard(card) && Valid(st.ledger)
    ensures Valid(TrelloStep(cfg, st, card, lists, a).store.ledger)
  {
    var found := FindOne(st.ledger, TrelloIdField, CardId(card));
    var r := TrelloRemote(cfg, TrelloTask(st.ledger, card, a.at), card, lists, a);
    SettledWritesOneEntry(st.ledger, found, r.task, r.failure, a);
  }

  /** The schema and the unique indexes hold after a whole Trello pass. */
  lemma {:induction false} TrelloRunKeepsValid(cfg: Config, st: Store, cards: seq<TrelloCard>, lists: seq<TrelloList>, attempts: seq<Attempt>)
    requires |attempts| == |cards| && AllTrelloCards(cards) && Valid(st.ledger)
    ensures Valid(TrelloRun(cfg, st, cards, lists, attempts).store.ledger)
  {
    if cards != [] {
      var n := |cards| - 1;
      TrelloRunKeepsValid(cfg, st, cards[..n], lists, attempts[..n]);
      TrelloStepKeepsValid(cfg, TrelloRun(cfg, st, cards[..n], lists, attempts[..n]).store, cards[n], lists, attempts[n]);
    }
  }

  // ---------------------------------------------------------------------------
  // A pass over the cards

  /** `after` keeps every entry of `before`, with its `trelloId`, and with its
      `jiraId` once that is set. */
  predicate KeepsCardLinks(before: seq<Task>, after: seq<Task>)
  {
    && |before| <= |after|
    && forall k :: 0 <= k < |before| ==>
         after[k].trelloId == before[k].trelloId && (IsSet(before[k].jiraId) ==> after[k].jiraId == before[k].jiraId)
  }

  lemma CardLinkedKept(before: seq<Task>, after: seq<Task>, id: string)
    requires KeepsCardLinks(before, after) && CardLinked(before, id)
    ensures CardLinked(after, id)
  {
    var k :| 0 <= k < |before| && CardLinkedAt(before, id, k);
    assert CardLinkedAt(after, id, k);
  }

  /** A Trello step never unlinks or re-keys an entry. */
  lemma TrelloStepKeepsLinks(cfg: Config, st: Store, card: TrelloCard, lists: seq<TrelloList>, a: Attempt)
    requires IsTrelloCard(card)
    ensures KeepsCardLinks(st.ledger, TrelloStep(cfg, st, card, lists, a).store.ledger)
  {
    var found := FindOne(st.ledger, TrelloIdField, CardId(card));
    var task := TrelloTask(st.ledger, card, a.at);
    var r := TrelloRemote(cfg, task, card, lists, a);
    assert r.task.trelloId == task.trelloId;
    assert IsSet(task.jiraId) ==> r.task.jiraId == task.jiraId;
    SettledWritesOneEntry(st.ledger, found, r.task, r.failure, a);
  }

  /** In a valid ledger the entry linking a card is the one `findOne`
      returns, so the step updates that issue and creates none. */
  lemma LinkedCardStepUpdates(cfg: Config, st: Store, card: TrelloCard, lists: seq<TrelloList>, a: Attempt)
    requires IsTrelloCard(card) && Valid(st.ledger) && CardLinked(st.ledger, CardId(card))
    ensures var task := TrelloTask(st.ledger, card, a.at);
            && IsSet(task.jiraId)
            && TrelloStep(cfg, st, card, lists, a).store.calls ==
               st.calls + [UpdateIssue(task.jiraId.value, TrelloToJira(cfg, card, lists))]
  {
    var k :| 0 <= k < |st.ledger| && CardLinkedAt(st.ledger, CardId(card), k);
    var found := FindOne(st.ledger, TrelloIdField, CardId(card));
    assert found.Some?;
    if found.value != k {
      assert Collide(st.ledger, TrelloIdField, found.value, k);
    }
  }

  /** A Trello pass never unlinks or re-keys an entry. */
  lemma {:induction false} TrelloRunKeepsLinks(cfg: Config, st: Store, cards: seq<TrelloCard>, lists: seq<TrelloList>, attempts: seq<Attempt>)
    requires |attempts| == |cards| && AllTrelloCards(cards)
    ensures KeepsCardLinks(st.ledger, TrelloRun(cfg, st, cards, lists, attempts).store.ledger)
  {
    if cards != [] {
      var n := |cards| - 1;
      TrelloRunKeepsLinks(cfg, st, cards[..n], lists, attempts[..n]);
      TrelloStepKeepsLinks(cfg, TrelloRun(cfg, st, cards[..n], lists, attempts[..n]).store, cards[n], lists, attempts[n]);
    }
  }

  /** What the last card of a pass adds to the pass over the others. */
  lemma TrelloRunLast(cfg: Config, st: Store, cards: seq<TrelloCard>, lists: seq<TrelloList>, attempts: seq<Attempt>)
    requires |attempts| == |cards| && AllTrelloCards(cards) && cards != []
    ensures var n := |cards| - 1;
            var before := TrelloRun(cfg, st, cards[..n], lists, attempts[..n]);
            var after := TrelloRun(cfg, st, cards, lists, attempts);
            && KeepsCardLinks(before.store.ledger, after.store.ledger)
            && after.outcomes[..n] == before.outcomes
            && (CreatedIdsSet(attempts) && after.outcomes[n].None? ==> CardLinked(after.store.ledger, CardId(cards[n])))
            && (Valid(before.store.ledger) ==> Valid(after.store.ledger))
            && (Valid(before.store.ledger) && CardLinked(before.store.ledger, CardId(cards[n])) ==>
                  && |after.store.calls| == |before.store.calls| + 1
                  && after.store.calls[..|before.store.calls|] == before.store.calls
                  && after.store.calls[|before.store.calls|].UpdateIssue?)
  {
    var n := |cards| - 1;
    var before := TrelloRun(cfg, st, cards[..n], lists, attempts[..n]);
    var a := attempts[n];
    TrelloStepKeepsLinks(cfg, before.store, cards[n], lists, a);
    if CreatedIdsSet(attempts) {
      TrelloStepLinks(cfg, before.store, cards[n], lists, a);
    }
    if Valid(before.store.ledger) {
      TrelloStepKeepsValid(cfg, before.store, cards[n], lists, a);
      if CardLinked(before.store.ledger, CardId(cards[n])) {
        LinkedCardStepUpdates(cfg, before.store, cards[n], lists, a);
      }
    }
  }

  /** After a Trello pass in which no card failed, every card is linked to
      an issue. */
  lemma {:induction false} CleanTrelloPassLinksAll(cfg: Config, st: Store, cards: seq<TrelloCard>, lists: seq<TrelloList>, attempts: seq<Attempt>)
    requires |attempts| == |cards| && AllTrelloCards(cards) && CreatedIdsSet(attempts)
    requires var r := TrelloRun(cfg, st, cards, lists, attempts);
             forall i :: 0 <= i < |r.outcomes| ==> r.outcomes[i].None?
    ensures forall k :: 0 <= k < |cards| ==> CardLinked(TrelloRun(cfg, st, cards, lists, attempts).store.ledger, CardId(cards[k]))
  {
    if cards != [] {
      var n := |cards| - 1;
      var before := TrelloRun(cfg, st, cards[..n], lists, attempts[..n]);
      var after := TrelloRun(cfg, st, cards, lists, attempts);
      TrelloRunLast(cfg, st, cards, lists, attempts);
      assert forall i :: 0 <= i < n ==> before.outcomes[i] == after.outcomes[..n][i];
      CreatedIdsSetPrefix(attempts, n);
      CleanTrelloPassLinksAll(cfg, st, cards[..n], lists, attempts[..n]);
      assert CardLinked(after.store.ledger, CardId(cards[n])) by {
        assert after.outcomes[n].None?;
      }
      CardLinksCarried(before.store.ledger, after.store.ledger, cards[..n]);
      CardLinkedToLast(after.store.ledger, cards[..n], cards);
    }
  }

  lemma CardLinksCarried(before: seq<Task>, after: seq<Task>, cards: seq<TrelloCard>)
    requires AllTrelloCards(cards) && KeepsCardLinks(before, after)
    requires forall k :: 0 <= k < |cards| ==> CardLinked(before, CardId(cards[k]))
    ensures forall k :: 0 <= k < |cards| ==> CardLinked(after, CardId(cards[k]))
  {
    forall k | 0 <= k < |cards| ensures CardLinked(after, CardId(cards[k])) {
      CardLinkedKept(before, after, CardId(cards[k]));
    }
  }

  lemma CardLinkedToLast(ledger: seq<Task>, prefix: seq<TrelloCard>, cards: seq<TrelloCard>)
    requires AllTrelloCards(cards) && |cards| == |prefix| + 1 && prefix == cards[..|prefix|]
    requires CardLinked(ledger, CardId(cards[|prefix|]))
    requires forall k :: 0 <= k < |prefix| ==> CardLinked(ledger, CardId(prefix[k]))
    ensures forall k :: 0 <= k < |cards| ==> CardLinked(ledger, CardId(cards[k]))
  {
    forall k | 0 <= k < |prefix| ensures CardLinked(ledger, CardId(cards[k])) {
      assert prefix[k] == cards[k];
    }
  }

  /** A Trello pass over cards that are all linked only updates issues: one
      `UpdateIssue` per card, and no `CreateIssue`. */
  lemma {:induction false} LinkedTrelloPassOnlyUpdates(cfg: Config, st: Store, cards: seq<TrelloCard>, lists: seq<TrelloList>, attempts: seq<Attempt>)
    requires |attempts| == |cards| && AllTrelloCards(cards) && Valid(st.ledger)
    requires forall k :: 0 <= k < |cards| ==> CardLinked(st.ledger, CardId(cards[k]))
    ensures var calls := TrelloRun(cfg, st, cards, lists, attempts).store.calls;
            && |calls| == |st.calls| + |cards|
            && calls[..|st.calls|] == st.calls
            && forall j :: |st.calls| <= j < |calls| ==> calls[j].UpdateIssue?
  {
    if cards != [] {
      var n := |cards| - 1;
      var before := TrelloRun(cfg, st, cards[..n], lists, attempts[..n]);
      assert forall k :: 0 <= k < n ==> cards[..n][k] == cards[k];
      LinkedTrelloPassOnlyUpdates(cfg, st, cards[..n], lists, attempts[..n]);
      TrelloRunKeepsValid(cfg, st, cards[..n], lists, attempts[..n]);
      TrelloRunKeepsLinks(cfg, st, cards[..n], lists, attempts[..n]);
      CardLinkedKept(st.ledger, before.store.ledger, CardId(cards[n]));
      TrelloRunLast(cfg, st, cards, lists, attempts);
      IssueUpdatesExtend(st.calls, before.store.calls, TrelloRun(cfg, st, cards, lists, attempts).store.calls);
    }
  }

  lemma IssueUpdatesExtend(start: seq<RemoteCall>, mid: seq<RemoteCall>, end: seq<RemoteCall>)
    requires |start| <= |mid| && mid[..|start|] == start
    requires forall j :: |start| <= j < |mid| ==> mid[j].UpdateIssue?
    requires |end| == |mid| + 1 && end[..|mid|] == mid && end[|mid|].UpdateIssue?
    ensures end[..|start|] == start
    ensures forall j :: |start| <= j < |end| ==> end[j].UpdateIssue?
  {
    assert forall j :: |start| <= j < |mid| ==> end[j] == mid[j] by {
      forall j | |start| <= j < |mid| ensures end[j] == mid[j] {
        assert end[..|mid|][j] == end[j];
      }
    }
  }

  /** Running the Trello-to-Jira pass again after a pass in which no card
      failed creates no issue: every card is synced by updating its issue. */
  lemma RepeatedTrelloPassOnlyUpdates(cfg: Config, st: Store, cards: seq<TrelloCard>, lists: seq<TrelloList>,
                                      first: seq<Attempt>, second: seq<Attempt>)
    requires |first| == |cards| && |second| == |cards| && AllTrelloCards(cards)
    requires Valid(st.ledger) && CreatedIdsSet(first)
    requires var r := TrelloRun(cfg, st, cards, lists, first);
             forall i :: 0 <= i < |r.outcomes| ==> r.outcomes[i].None?
    ensures var once := TrelloRun(cfg, st, cards, lists, first).store;
            var twice := TrelloRun(cfg, once, cards, lists, second).store;
            forall j :: |once.calls| <= j < |twice.calls| ==> !twice.calls[j].CreateIssue?
  {
    var once := TrelloRun(cfg, st, cards, lists, first).store;
    CleanTrelloPassLinksAll(cfg, st, cards, lists, first);
    TrelloRunKeepsValid(cfg, st, cards, lists, first);
    LinkedTrelloPassOnlyUpdates(cfg, once, cards, lists, second);
  }

  // ---------------------------------------------------------------------------
  // A single task

  /** A single task is fetched from Jira only for `jira_to_trello`, and from
      Trello for any other direction; the lists are fetched next, and a
      failed fetch ends the sync with its error and nothing saved. */
  lemma SingleTaskFetchOrder(cfg: Config, st: Store, taskId: string, direction: string,
                             issue: Result<JiraIssue>, card: Result<TrelloCard>,
                             lists: Result<seq<TrelloList>>, a: Attempt)
    requires issue.Ok? ==> IsJiraIssue(issue.value)
    requires card.Ok? ==> IsTrelloCard(card.value)
    ensures var s := SingleTask(cfg, st, taskId, direction, issue, card, lists, a);
            var first := if direction == "jira_to_trello" then GetIssue(taskId) else GetCard(taskId);
            var record := if direction == "jira_to_trello" then issue.Err? else card.Err?;
            && |s.store.calls| > |st.calls|
            && s.store.calls[..|st.calls|] == st.calls
            && s.store.calls[|st.calls|] == first
            && (record ==> s == Step(Store(st.ledger, st.calls + [first]),
                                    Some(if direction == "jira_to_trello" then issue.msg else card.msg)))
            && (!record ==> |s.store.calls| > |st.calls| + 1 && s.store.calls[|st.calls| + 1] == GetLists)
            && (!record && lists.Err? ==> s == Step(Store(st.ledger, st.calls + [first, GetLists]), Some(lists.msg)))
  {
  }
}
