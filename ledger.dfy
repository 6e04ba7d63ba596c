/** The task ledger: the `Task` collection linking a Jira issue to a Trello
    card, with its unique sparse `jiraId` and `trelloId` indexes and the
    `required` title, as `findOne` and `save` see it. */
module Ledger {
  import opened Wrappers

  datatype SyncState = Pending | Synced | Error

  /** `syncDirection`: `'jira_to_trello'` is `ToTrello`, `'trello_to_jira'` is `ToJira`. */
  datatype Direction = ToTrello | ToJira

  /** One ledger entry; `None` is a property the document does not have. */
  datatype Task = Task(
    jiraId: Option<string>,
    trelloId: Option<string>,
    title: string,
    status: string,
    syncStatus: SyncState,
    syncDirection: Direction,
    lastSyncedAt: int,
    errorMessage: Option<string>)

  /** The two indexed id properties. */
  datatype IdField = JiraIdField | TrelloIdField

  function IdOf(t: Task, f: IdField): Option<string>
  {
    if f == JiraIdField then t.jiraId else t.trelloId
  }

  /** `if (task.trelloId)`: an id that is present and not empty. */
  predicate IsSet(id: Option<string>)
  {
    id.Some? && id.value != ""
  }

  /** `new Task({...})` for a record seen for the first time: pending, with
      `lastSyncedAt` defaulting to the time `now`. */
  function NewTask(jiraId: Option<string>, trelloId: Option<string>, title: string,
                   direction: Direction, now: int): Task
  {
    Task(jiraId, trelloId, title, "pending", Pending, direction, now, None)
  }

  /** `Task.findOne({ f: id })`: the first entry whose `f` is `id`. */
  function FindOne(ledger: seq<Task>, f: IdField, id: string): (r: Option<nat>)
    ensures r.Some? ==> r.value < |ledger| && IdOf(ledger[r.value], f) == Some(id)
    ensures r.Some? ==> forall j :: 0 <= j < r.value ==> IdOf(ledger[j], f) != Some(id)
    ensures r.None? ==> forall j :: 0 <= j < |ledger| ==> IdOf(ledger[j], f) != Some(id)
  {
    if ledger == [] then None
    else if IdOf(ledger[0], f) == Some(id) then Some(0)
    else match FindOne(ledger[1..], f, id)
      case None => None
      case Some(k) => Some(k + 1)
  }

  /** Entries `i` and `j` carry the same id in index `f`; entries without the
      property are not in the sparse index and never collide. */
  predicate Collide(ledger: seq<Task>, f: IdField, i: nat, j: nat)
    requires i < |ledger| && j < |ledger|
  {
    IdOf(ledger[i], f).Some? && IdOf(ledger[i], f) == IdOf(ledger[j], f)
  }

  /** What the schema and its indexes guarantee of every stored entry. */
  predicate Valid(ledger: seq<Task>)
  {
    && (forall i :: 0 <= i < |ledger| ==> ledger[i].title != "")
    && (forall f, i, j :: 0 <= i < |ledger| && 0 <= j < |ledger| && i != j ==> !Collide(ledger, f, i, j))
  }

  /** Another entry than the one at `at` holds `t`'s id in index `f`. */
  predicate Clash(ledger: seq<Task>, at: Option<nat>, t: Task, f: IdField)
  {
    exists j :: 0 <= j < |ledger| && at != Some(j) && IdOf(t, f).Some? && IdOf(ledger[j], f) == IdOf(t, f)
  }

  /** The ledger with `t` written over the entry at `at`, or appended. */
  function Put(ledger: seq<Task>, at: Option<nat>, t: Task): seq<Task>
    requires at.Some? ==> at.value < |ledger|
  {
    if at.None? then ledger + [t] else ledger[at.value := t]
  }

  const TitleRequired := "Task validation failed: title: Path `title` is required."

  function DuplicateKey(f: IdField): string
  {
    "E11000 duplicate key error collection: tasks index: " + (if f == JiraIdField then "jiraId_1" else "trelloId_1")
  }

  /** `task.save()` of the entry at `at`, or of a new entry when `at` is
      `None`: schema validation first, then a fault of the store (`fault`),
      then the unique indexes; on success the entry is written in place or
      appended. */
  function Save(ledger: seq<Task>, at: Option<nat>, t: Task, fault: Option<string>): (r: Result<seq<Task>>)
    requires at.Some? ==> at.value < |ledger|
    ensures r.Ok? <==> t.title != "" && fault.None? && !Clash(ledger, at, t, JiraIdField) && !Clash(ledger, at, t, TrelloIdField)
    ensures r.Ok? ==> r.value == Put(ledger, at, t)
    ensures r.Err? && t.title == "" ==> r.msg == TitleRequired
    ensures r.Err? && t.title != "" && fault.Some? ==> r.msg == fault.value
    ensures Valid(ledger) && r.Ok? ==> Valid(r.value)
  {
    if t.title == "" then Err(TitleRequired)
    else if fault.Some? then Err(fault.value)
    else if Clash(ledger, at, t, JiraIdField) then Err(DuplicateKey(JiraIdField))
    else if Clash(ledger, at, t, TrelloIdField) then Err(DuplicateKey(TrelloIdField))
    else
      var saved := Put(ledger, at, t);
      assert Valid(ledger) ==> Valid(saved) by {
        if Valid(ledger) {
          forall f, i, j | 0 <= i < |saved| && 0 <= j < |saved| && i != j
            ensures !Collide(saved, f, i, j)
          {
            var k := if at.Some? then at.value else |ledger|;
            if i == k {
              assert !Clash(ledger, at, t, f);
              if j < |ledger| { assert at != Some(j); }
            } else if j == k {
              assert !Clash(ledger, at, t, f);
              if i < |ledger| { assert at != Some(i); }
            } else {
              assert saved[i] == ledger[i] && saved[j] == ledger[j];
              assert !Collide(ledger, f, i, j);
            }
          }
        }
      }
      Ok(saved)
  }
}
