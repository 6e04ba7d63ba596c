/** The translation between a Jira issue and a Trello card (`MappingService`),
    driven by a configuration's field mappings and status mappings. Every
    operation is pure; the ones the service writes as loops over the field
    mappings are methods proved equal to a specification function. */
module Mapping {
  import opened Wrappers
  import opened Text
  import opened Json

  /** One entry of `fieldMappings`: a (possibly dotted) Jira field and a Trello field. */
  datatype FieldMapping = FieldMapping(jiraField: string, trelloField: string)

  /** One entry of `statusMappings`: a Jira status and the name of a Trello list. */
  datatype StatusMapping = StatusMapping(jiraStatus: string, trelloStatus: string)

  /** The part of a user's sync configuration the engine reads. */
  datatype Config = Config(userId: string, fieldMappings: seq<FieldMapping>, statusMappings: seq<StatusMapping>)

  /** A column of the Trello board. */
  datatype TrelloList = TrelloList(id: string, name: string)

  /** A Jira issue: its id, its key and its `fields` object. */
  datatype JiraIssue = JiraIssue(id: string, key: string, fields: map<string, Value>)

  /** A Trello card as the parsed response object. */
  datatype TrelloCard = TrelloCard(props: map<string, Value>)

  datatype Platform = Jira | Trello

  /** The shape the service's type declarations promise for an issue:
      `summary` and `status.name` are strings, `description` and `duedate`
      are strings when present. */
  predicate IsJiraIssue(issue: JiraIssue)
  {
    && HasString(issue.fields, "summary")
    && "status" in issue.fields && issue.fields["status"].Obj?
    && HasString(issue.fields["status"].props, "name")
    && MaybeString(issue.fields, "description")
    && MaybeString(issue.fields, "duedate")
  }

  function Summary(issue: JiraIssue): string
    requires IsJiraIssue(issue)
  {
    issue.fields["summary"].s
  }

  function StatusName(issue: JiraIssue): string
    requires IsJiraIssue(issue)
  {
    issue.fields["status"].props["name"].s
  }

  /** The shape declared for a card: `id`, `name` and `idList` are strings,
      `desc` and `due` are strings when present, `labels` an array of objects. */
  predicate IsTrelloCard(card: TrelloCard)
  {
    && HasString(card.props, "id")
    && HasString(card.props, "name")
    && HasString(card.props, "idList")
    && MaybeString(card.props, "desc")
    && MaybeString(card.props, "due")
    && ("labels" in card.props ==>
          card.props["labels"].Arr? && forall l :: l in card.props["labels"].items ==> l.Obj?)
  }

  function CardId(card: TrelloCard): string
    requires IsTrelloCard(card)
  {
    card.props["id"].s
  }

  function CardName(card: TrelloCard): string
    requires IsTrelloCard(card)
  {
    card.props["name"].s
  }

  // ---------------------------------------------------------------------------
  // Lookups

  predicate StatusMatches(m: StatusMapping, status: string, platform: Platform)
  {
    SameIgnoringCase(if platform == Jira then m.jiraStatus else m.trelloStatus, status)
  }

  /** `getStatusMapping`: the first mapping whose status on `platform` equals
      `status` ignoring case. */
  function GetStatusMapping(ms: seq<StatusMapping>, status: string, platform: Platform): (r: Option<StatusMapping>)
    ensures r.Some? <==> exists i :: 0 <= i < |ms| && StatusMatches(ms[i], status, platform)
    ensures r.Some? ==> exists i :: 0 <= i < |ms| && ms[i] == r.value && StatusMatches(ms[i], status, platform) &&
                                    forall j :: 0 <= j < i ==> !StatusMatches(ms[j], status, platform)
  {
    if ms == [] then None
    else if StatusMatches(ms[0], status, platform) then Some(ms[0])
    else
      var r := GetStatusMapping(ms[1..], status, platform);
      assert forall i :: 0 < i < |ms| ==> ms[i] == ms[1..][i - 1];
      r
  }

  /** The first list whose name equals `name` ignoring case. */
  function FindListByName(lists: seq<TrelloList>, name: string): (r: Option<TrelloList>)
    ensures r.Some? <==> exists i :: 0 <= i < |lists| && SameIgnoringCase(lists[i].name, name)
    ensures r.Some? ==> exists i :: 0 <= i < |lists| && lists[i] == r.value && SameIgnoringCase(lists[i].name, name) &&
                                    forall j :: 0 <= j < i ==> !SameIgnoringCase(lists[j].name, name)
  {
    if lists == [] then None
    else if SameIgnoringCase(lists[0].name, name) then Some(lists[0])
    else
      var r := FindListByName(lists[1..], name);
      assert forall i :: 0 < i < |lists| ==> lists[i] == lists[1..][i - 1];
      r
  }

  /** The first list whose id is exactly `id`. */
  function FindListById(lists: seq<TrelloList>, id: string): (r: Option<TrelloList>)
    ensures r.Some? <==> exists i :: 0 <= i < |lists| && lists[i].id == id
    ensures r.Some? ==> r.value in lists && r.value.id == id
    ensures r.Some? ==> exists i :: 0 <= i < |lists| && lists[i] == r.value &&
                                    forall j :: 0 <= j < i ==> lists[j].id != id
  {
    if lists == [] then None
    else if lists[0].id == id then Some(lists[0])
    else FindListById(lists[1..], id)
  }

  /** The walk `getJiraFieldValue` makes: descend one segment at a time while
      the current value is truthy and has the segment; otherwise null. */
  function Resolve(v: Value, path: seq<string>): Value
    decreases path
  {
    if path == [] then v
    else if Truthy(v) && Member(v, path[0]).Some? then Resolve(Member(v, path[0]).value, path[1..])
    else Null
  }

  /** `getJiraFieldValue`: split the field name on dots and walk from the
      issue's fields. */
  method GetJiraFieldValue(issue: JiraIssue, fieldName: string) returns (value: Value)
    ensures value == Resolve(Obj(issue.fields), Split(fieldName, '.'))
  {
    var fieldParts := Split(fieldName, '.');
    value := Obj(issue.fields);
    var i := 0;
    while i < |fieldParts|
      invariant 0 <= i <= |fieldParts|
      invariant Resolve(Obj(issue.fields), fieldParts) == Resolve(value, fieldParts[i..])
    {
      var part := fieldParts[i];
      var next := Member(value, part);
      if Truthy(value) && next.Some? {
        value := next.value;
      } else {
        return Null;
      }
      i := i + 1;
    }
  }

  /** `getTrelloFieldValue`: the first label's name for `labels` when there
      is a label, otherwise the card's property of that name. */
  function TrelloFieldValue(card: TrelloCard, fieldName: string): Option<Value>
  {
    if fieldName == "labels" && "labels" in card.props && card.props["labels"].Arr? &&
       |card.props["labels"].items| > 0
    then Member(card.props["labels"].items[0], "name")
    else Get(card.props, fieldName)
  }

  // ---------------------------------------------------------------------------
  // Jira to Trello

  /** A card as `mapJiraToTrello` builds it; `None` is a property it never set.
      `labels` holds the name of the single label `[{name: v}]`. */
  datatype CardPatch = CardPatch(name: string, desc: Option<string>, due: Option<string>,
                                 idList: Option<string>, labels: Option<Value>)

  /** The description with the backlink to its issue appended. */
  function Backlinked(description: string, key: string): string
  {
    description + "\n\n[Jira Issue: " + key + "]"
  }

  /** The list an issue in `status` belongs to: the status mapping found
      first, then the list found first by that mapping's Trello name. */
  function ListForStatus(ms: seq<StatusMapping>, status: string, lists: seq<TrelloList>): Option<string>
  {
    match GetStatusMapping(ms, status, Jira)
    case None => None
    case Some(m) =>
      match FindListByName(lists, m.trelloStatus)
      case None => None
      case Some(l) => Some(l.id)
  }

  /** The value the field mapping `m` gives the labels, if it gives any. */
  function LabelWrite(issue: JiraIssue, m: FieldMapping): Option<Value>
  {
    var v := Resolve(Obj(issue.fields), Split(m.jiraField, '.'));
    if Truthy(v) && m.trelloField == "labels" then Some(v) else None
  }

  /** The labels after the field-mapping loop: the last write wins. */
  function LabelFromMappings(issue: JiraIssue, ms: seq<FieldMapping>): Option<Value>
  {
    if ms == [] then None
    else if LabelWrite(issue, ms[|ms| - 1]).Some? then LabelWrite(issue, ms[|ms| - 1])
    else LabelFromMappings(issue, ms[..|ms| - 1])
  }

  /** The card's description: the issue's, when it has one, with the backlink. */
  function DescriptionFor(issue: JiraIssue): Option<string>
  {
    match TruthyString(issue.fields, "description")
    case Some(d) => Some(Backlinked(d, issue.key))
    case None => None
  }

  /** What `mapJiraToTrello` returns. */
  function JiraToTrello(cfg: Config, issue: JiraIssue, lists: seq<TrelloList>): CardPatch
    requires IsJiraIssue(issue)
  {
    CardPatch(
      Summary(issue),
      DescriptionFor(issue),
      TruthyString(issue.fields, "duedate"),
      ListForStatus(cfg.statusMappings, StatusName(issue), lists),
      LabelFromMappings(issue, cfg.fieldMappings))
  }

  /** `mapJiraToTrello`, building the card property by property. */
  method MapJiraToTrello(cfg: Config, issue: JiraIssue, lists: seq<TrelloList>) returns (card: CardPatch)
    requires IsJiraIssue(issue)
    ensures card == JiraToTrello(cfg, issue, lists)
  {
    card := CardPatch(Summary(issue), None, None, None, None);
    var description := TruthyString(issue.fields, "description");
    if description.Some? {
      card := card.(desc := Some(Backlinked(description.value, issue.key)));
    }
    assert card.desc == DescriptionFor(issue);
    var duedate := TruthyString(issue.fields, "duedate");
    if duedate.Some? {
      card := card.(due := duedate);
    }
    var statusMapping := GetStatusMapping(cfg.statusMappings, StatusName(issue), Jira);
    if statusMapping.Some? {
      var targetList := FindListByName(lists, statusMapping.value.trelloStatus);
      if targetList.Some? {
        card := card.(idList := Some(targetList.value.id));
      }
    }
    assert card.idList == ListForStatus(cfg.statusMappings, StatusName(issue), lists);
    card := MapLabelFields(issue, cfg.fieldMappings, card);
  }

  /** The field-mapping loop of `mapJiraToTrello`: only mappings onto
      `labels` whose Jira value is truthy write, and the last write stays. */
  method MapLabelFields(issue: JiraIssue, ms: seq<FieldMapping>, card: CardPatch) returns (mapped: CardPatch)
    ensures mapped == card.(labels := if LabelFromMappings(issue, ms).Some? then LabelFromMappings(issue, ms) else card.labels)
  {
    mapped := card;
    var i := 0;
    while i < |ms|
      invariant 0 <= i <= |ms|
      invariant mapped == card.(labels := mapped.labels)
      invariant mapped.labels == if LabelFromMappings(issue, ms[..i]).Some? then LabelFromMappings(issue, ms[..i]) else card.labels
    {
      var fieldMapping := ms[i];
      var jiraValue := GetJiraFieldValue(issue, fieldMapping.jiraField);
      if Truthy(jiraValue) {
        if fieldMapping.trelloField == "labels" {
          mapped := mapped.(labels := Some(jiraValue));
        }
      }
      LabelFromMappingsStep(issue, ms, i);
      i := i + 1;
    }
    assert ms[..i] == ms;
  }

  lemma LabelFromMappingsStep(issue: JiraIssue, ms: seq<FieldMapping>, i: nat)
    requires i < |ms|
    ensures LabelFromMappings(issue, ms[..i + 1]) ==
            if LabelWrite(issue, ms[i]).Some? then LabelWrite(issue, ms[i]) else LabelFromMappings(issue, ms[..i])
  {
    assert ms[..i + 1][..i] == ms[..i];
  }

  // ---------------------------------------------------------------------------
  // Trello to Jira

  const BacklinkOpen: string := "[Jira Issue:"

  /** The pattern `\[Jira Issue:.*\]$` matches from index `i` on: the opening
      text, then anything without a line terminator, then `]` ending `s`. */
  predicate BacklinkAt(s: string, i: nat)
  {
    && i + |BacklinkOpen| < |s|
    && s[i..i + |BacklinkOpen|] == BacklinkOpen
    && s[|s| - 1] == ']'
    && forall k :: i + |BacklinkOpen| <= k < |s| - 1 ==> !IsLineTerminator(s[k])
  }

  /** The leftmost match at or after `i`, where `replace` finds it. */
  function FirstBacklinkFrom(s: string, i: nat): (r: Option<nat>)
    requires i <= |s|
    ensures r.Some? ==> i <= r.value && BacklinkAt(s, r.value)
    ensures r.Some? ==> forall j: nat :: i <= j < r.value ==> !BacklinkAt(s, j)
    ensures r.None? ==> forall j: nat :: i <= j ==> !BacklinkAt(s, j)
    decreases |s| - i
  {
    if i == |s| then None
    else if BacklinkAt(s, i) then Some(i)
    else FirstBacklinkFrom(s, i + 1)
  }

  /** `desc.replace(/\[Jira Issue:.*\]$/, '')`. */
  function StripBacklink(s: string): string
  {
    match FirstBacklinkFrom(s, 0)
    case Some(i) => s[..i]
    case None => s
  }

  /** `due.split('T')[0]`: the date before the first `T`. */
  function DatePart(due: string): string
  {
    Split(due, 'T')[0]
  }

  /** The Jira status for the card's list: the list whose id is the card's
      `idList`, then the first status mapping whose Trello name matches it. */
  function StatusForList(ms: seq<StatusMapping>, card: TrelloCard, lists: seq<TrelloList>): Option<string>
  {
    match Get(card.props, "idList")
    case Some(Str(idList)) =>
      (match FindListById(lists, idList)
       case None => None
       case Some(l) =>
         match GetStatusMapping(ms, l.name, Trello)
         case None => None
         case Some(m) => Some(m.jiraStatus))
    case _ => None
  }

  /** The issue fields `mapTrelloToJira` sets before its field-mapping loop. */
  function BaseIssueFields(ms: seq<StatusMapping>, card: TrelloCard, lists: seq<TrelloList>): map<string, Value>
    requires IsTrelloCard(card)
  {
    var withSummary := map["summary" := Str(CardName(card))];
    var withDesc :=
      match TruthyString(card.props, "desc")
      case Some(d) => withSummary["description" := Str(Trim(StripBacklink(d)))]
      case None => withSummary;
    var withDue :=
      match TruthyString(card.props, "due")
      case Some(d) => withDesc["duedate" := Str(DatePart(d))]
      case None => withDesc;
    match StatusForList(ms, card, lists)
    case Some(s) => withDue["status" := Obj(map["name" := Str(s)])]
    case None => withDue
  }

  /** What the field mapping `m` writes into the issue fields, if anything. */
  function FieldWrite(card: TrelloCard, m: FieldMapping): Option<Value>
  {
    var v := TrelloFieldValue(card, m.trelloField);
    if Present(v) then v else None
  }

  /** The field-mapping loop of `mapTrelloToJira`, applied to `fields`. */
  function OverwriteFields(fields: map<string, Value>, card: TrelloCard, ms: seq<FieldMapping>): map<string, Value>
  {
    if ms == [] then fields
    else
      var before := OverwriteFields(fields, card, ms[..|ms| - 1]);
      match FieldWrite(card, ms[|ms| - 1])
      case Some(v) => before[ms[|ms| - 1].jiraField := v]
      case None => before
  }

  /** The `fields` of what `mapTrelloToJira` returns. */
  function TrelloToJira(cfg: Config, card: TrelloCard, lists: seq<TrelloList>): map<string, Value>
    requires IsTrelloCard(card)
  {
    OverwriteFields(BaseIssueFields(cfg.statusMappings, card, lists), card, cfg.fieldMappings)
  }

  /** `mapTrelloToJira`, building the issue fields property by property. */
  method MapTrelloToJira(cfg: Config, card: TrelloCard, lists: seq<TrelloList>) returns (fields: map<string, Value>)
    requires IsTrelloCard(card)
    ensures fields == TrelloToJira(cfg, card, lists)
  {
    fields := map["summary" := Str(CardName(card))];
    var desc := TruthyString(card.props, "desc");
    if desc.Some? {
      var descWithoutJiraRef := Trim(StripBacklink(desc.value));
      fields := fields["description" := Str(descWithoutJiraRef)];
    }
    var due := TruthyString(card.props, "due");
    if due.Some? {
      fields := fields["duedate" := Str(DatePart(due.value))];
    }
    var idList := Get(card.props, "idList");
    if idList.Some? && idList.value.Str? {
      var currentList := FindListById(lists, idList.value.s);
      if currentList.Some? {
        var statusMapping := GetStatusMapping(cfg.statusMappings, currentList.value.name, Trello);
        if statusMapping.Some? {
          fields := fields["status" := Obj(map["name" := Str(statusMapping.value.jiraStatus)])];
        }
      }
    }
    assert fields == BaseIssueFields(cfg.statusMappings, card, lists);
    fields := MapOverwriteFields(fields, card, cfg.fieldMappings);
  }

  /** The field-mapping loop of `mapTrelloToJira`: every mapping whose Trello
      value is truthy writes it, raw, under its Jira field name. */
  method MapOverwriteFields(base: map<string, Value>, card: TrelloCard, ms: seq<FieldMapping>) returns (fields: map<string, Value>)
    ensures fields == OverwriteFields(base, card, ms)
  {
    fields := base;
    var i := 0;
    while i < |ms|
      invariant 0 <= i <= |ms|
      invariant fields == OverwriteFields(base, card, ms[..i])
    {
      var fieldMapping := ms[i];
      var trelloValue := TrelloFieldValue(card, fieldMapping.trelloField);
      if Present(trelloValue) {
        fields := fields[fieldMapping.jiraField := trelloValue.value];
      }
      assert ms[..i + 1][..i] == ms[..i];
      i := i + 1;
    }
    assert ms[..i] == ms;
  }

  // ---------------------------------------------------------------------------
  // Default tables

  /** `getDefaultFieldMappings`. */
  function DefaultFieldMappings(): seq<FieldMapping>
  {
    [ FieldMapping("summary", "name"),
      FieldMapping("description", "desc"),
      FieldMapping("duedate", "due"),
      FieldMapping("assignee.displayName", "idMembers") ]
  }

  /** `getDefaultStatusMappings`. */
  function DefaultStatusMappings(): seq<StatusMapping>
  {
    [ StatusMapping("To Do", "To Do"),
      StatusMapping("In Progress", "Doing"),
      StatusMapping("Done", "Done"),
      StatusMapping("Blocked", "Blocked") ]
  }
}
