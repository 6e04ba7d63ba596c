/** What the translations in `Mapping` guarantee: which card and issue
    properties are present, the lookups behind them, last-write-wins in the
    field-mapping loops, and the description and due-date round trips. */
module MappingProperties {
  import opened Wrappers
  import opened Text
  import opened Json
  import opened Mapping

  // ---------------------------------------------------------------------------
  // Dot-path lookup

  /** Walking a path is walking its first part, then the rest from there. */
  lemma {:induction false} ResolveAppend(v: Value, p: seq<string>, q: seq<string>)
    ensures Resolve(v, p + q) == Resolve(Resolve(v, p), q)
    decreases p
  {
    if p == [] {
      assert p + q == q;
    } else {
      assert (p + q)[1..] == p[1..] + q;
      if Truthy(v) && Member(v, p[0]).Some? {
        ResolveAppend(Member(v, p[0]).value, p[1..], q);
      } else if q != [] {
        assert Resolve(Null, q) == Null;
      }
    }
  }

  /** A name without a dot splits into itself; one dot splits it in two. */
  lemma SplitAtDot(head: string, tail: string)
    requires '.' !in head && '.' !in tail
    ensures Split(head, '.') == [head]
    ensures Split(head + "." + tail, '.') == [head, tail]
  {
    var s := head + "." + tail;
    assert s == head + ['.'] + tail;
    IndexOfCharAfter(head, '.', tail);
    assert s[..|head|] == head && s[|head| + 1..] == tail;
  }

  /** `getJiraFieldValue` on `a.b`: the `b` of a truthy `a`, or null when
      `a` is missing or falsy or has no `b`; on a plain name, the field
      itself or null when it is missing. */
  lemma {:induction false} NestedFieldValue(issue: JiraIssue, head: string, tail: string)
    requires '.' !in head && '.' !in tail
    ensures Resolve(Obj(issue.fields), Split(head, '.')) ==
            if head in issue.fields then issue.fields[head] else Null
    ensures Resolve(Obj(issue.fields), Split(head + "." + tail, '.')) ==
            if head in issue.fields && Truthy(issue.fields[head]) && Member(issue.fields[head], tail).Some?
            then Member(issue.fields[head], tail).value
            else Null
  {
    SplitAtDot(head, tail);
    ResolveAppend(Obj(issue.fields), [head], [tail]);
    assert [head] + [tail] == [head, tail];
    assert Resolve(Obj(issue.fields), [head]) == if head in issue.fields then issue.fields[head] else Null by {
      assert [head][1..] == [];
    }
    if head in issue.fields {
      var v := issue.fields[head];
      assert [tail][1..] == [];
      assert Resolve(v, [tail]) == if Truthy(v) && Member(v, tail).Some? then Member(v, tail).value else Null;
    }
  }

  /** A segment also indexes an array or a string, and `length` reads the
      length of either, as `value[part]` does on them. */
  lemma IndexAndLengthSegments(issue: JiraIssue, head: string, tail: string)
    requires '.' !in head && '.' !in tail && head in issue.fields
    ensures var v := issue.fields[head];
            v.Arr? && IsIndex(tail) && DigitsValue(tail) < |v.items| ==>
              Resolve(Obj(issue.fields), Split(head + "." + tail, '.')) == v.items[DigitsValue(tail)]
    ensures var v := issue.fields[head];
            v.Arr? && tail == "length" ==>
              Resolve(Obj(issue.fields), Split(head + "." + tail, '.')) == Num(|v.items| as real)
    ensures var v := issue.fields[head];
            v.Str? && v.s != "" && tail == "length" ==>
              Resolve(Obj(issue.fields), Split(head + "." + tail, '.')) == Num(|v.s| as real)
  {
    NestedFieldValue(issue, head, tail);
  }

  /** `labels.0` on `["a"]` is `"a"`. */
  lemma ArrayIndexExample(issue: JiraIssue)
    requires issue.fields == map["labels" := Arr([Str("a")])]
    ensures Resolve(Obj(issue.fields), Split("labels.0", '.')) == Str("a")
  {
    assert "labels.0" == "labels" + "." + "0";
    assert IsIndex("0") && DigitsValue("0") == 0 by {
      assert "0"[..0] == [];
    }
    IndexAndLengthSegments(issue, "labels", "0");
  }

  /** `summary.length` on `"abc"` is 3. */
  lemma StringLengthExample(issue: JiraIssue)
    requires issue.fields == map["summary" := Str("abc")]
    ensures Resolve(Obj(issue.fields), Split("summary.length", '.')) == Num(3.0)
  {
    assert "summary.length" == "summary" + "." + "length";
    IndexAndLengthSegments(issue, "summary", "length");
  }

  // ---------------------------------------------------------------------------
  // Jira to Trello

  /** The base card: `name` is always the summary; `desc` is present exactly
      when the issue has a non-empty description and then carries the
      backlink; `due` is present exactly when the due date is non-empty. */
  lemma JiraToTrelloBaseFields(cfg: Config, issue: JiraIssue, lists: seq<TrelloList>)
    requires IsJiraIssue(issue)
    ensures JiraToTrello(cfg, issue, lists).name == issue.fields["summary"].s
    ensures JiraToTrello(cfg, issue, lists).desc.Some? <==>
            "description" in issue.fields && issue.fields["description"] != Null && issue.fields["description"].s != ""
    ensures JiraToTrello(cfg, issue, lists).desc.Some? ==>
            JiraToTrello(cfg, issue, lists).desc.value == issue.fields["description"].s + "\n\n[Jira Issue: " + issue.key + "]"
    ensures JiraToTrello(cfg, issue, lists).due.Some? <==>
            "duedate" in issue.fields && issue.fields["duedate"] != Null && issue.fields["duedate"].s != ""
    ensures JiraToTrello(cfg, issue, lists).due.Some? ==>
            JiraToTrello(cfg, issue, lists).due.value == issue.fields["duedate"].s
  {
  }

  /** The mapping at `i` is the first whose status on `platform` matches. */
  predicate FirstStatusMatch(ms: seq<StatusMapping>, status: string, platform: Platform, i: nat)
  {
    i < |ms| && StatusMatches(ms[i], status, platform) &&
    forall k :: 0 <= k < i ==> !StatusMatches(ms[k], status, platform)
  }

  lemma StatusMappingIsFirstMatch(ms: seq<StatusMapping>, status: string, platform: Platform, i: nat)
    requires FirstStatusMatch(ms, status, platform, i)
    ensures GetStatusMapping(ms, status, platform) == Some(ms[i])
  {
    var r := GetStatusMapping(ms, status, platform);
    var i0 :| 0 <= i0 < |ms| && ms[i0] == r.value && StatusMatches(ms[i0], status, platform) &&
              forall j :: 0 <= j < i0 ==> !StatusMatches(ms[j], status, platform);
  }

  lemma ListIsFirstMatch(lists: seq<TrelloList>, name: string, j: nat)
    requires j < |lists| && SameIgnoringCase(lists[j].name, name)
    requires forall k :: 0 <= k < j ==> !SameIgnoringCase(lists[k].name, name)
    ensures FindListByName(lists, name) == Some(lists[j])
  {
    var r := FindListByName(lists, name);
    var j0 :| 0 <= j0 < |lists| && lists[j0] == r.value && SameIgnoringCase(lists[j0].name, name) &&
              forall k :: 0 <= k < j0 ==> !SameIgnoringCase(lists[k].name, name);
  }

  /** `idList` is the id of the first list named, ignoring case, like the
      Trello status of the first status mapping matching the issue's status;
      it stays unset when no mapping matches or no list has that name. */
  lemma ListAssignment(cfg: Config, issue: JiraIssue, lists: seq<TrelloList>, i: nat, j: nat)
    requires IsJiraIssue(issue)
    ensures (forall k :: 0 <= k < |cfg.statusMappings| ==> !StatusMatches(cfg.statusMappings[k], StatusName(issue), Jira)) ==>
            JiraToTrello(cfg, issue, lists).idList.None?
    ensures FirstStatusMatch(cfg.statusMappings, StatusName(issue), Jira, i) &&
            (forall k :: 0 <= k < |lists| ==> !SameIgnoringCase(lists[k].name, cfg.statusMappings[i].trelloStatus)) ==>
            JiraToTrello(cfg, issue, lists).idList.None?
    ensures FirstStatusMatch(cfg.statusMappings, StatusName(issue), Jira, i) &&
            j < |lists| && SameIgnoringCase(lists[j].name, cfg.statusMappings[i].trelloStatus) &&
            (forall k :: 0 <= k < j ==> !SameIgnoringCase(lists[k].name, cfg.statusMappings[i].trelloStatus)) ==>
            JiraToTrello(cfg, issue, lists).idList == Some(lists[j].id)
  {
    var ms := cfg.statusMappings;
    if FirstStatusMatch(ms, StatusName(issue), Jira, i) {
      StatusMappingIsFirstMatch(ms, StatusName(issue), Jira, i);
      if j < |lists| && SameIgnoringCase(lists[j].name, ms[i].trelloStatus) &&
         (forall k :: 0 <= k < j ==> !SameIgnoringCase(lists[k].name, ms[i].trelloStatus)) {
        ListIsFirstMatch(lists, ms[i].trelloStatus, j);
      }
    }
  }

  /** The labels are those of the last field mapping onto `labels` whose
      resolved Jira value is truthy. */
  lemma {:induction false} LabelsLastWriteWins(issue: JiraIssue, ms: seq<FieldMapping>, j: nat)
    requires j < |ms| && LabelWrite(issue, ms[j]).Some?
    requires forall k {:trigger LabelWrite(issue, ms[k])} :: j < k < |ms| ==> LabelWrite(issue, ms[k]).None?
    ensures LabelFromMappings(issue, ms) == LabelWrite(issue, ms[j])
  {
    var n := |ms| - 1;
    if j < n {
      LaterLabelWritesOfFront(issue, ms, ms[..n], j);
      LabelsLastWriteWins(issue, ms[..n], j);
      LastLabelSkipped(issue, ms, LabelWrite(issue, ms[j]));
    } else {
      LastLabelWritten(issue, ms);
    }
  }

  /** A last mapping that writes a label decides the labels. */
  lemma LastLabelWritten(issue: JiraIssue, ms: seq<FieldMapping>)
    requires |ms| > 0 && LabelWrite(issue, ms[|ms| - 1]).Some?
    ensures LabelFromMappings(issue, ms) == LabelWrite(issue, ms[|ms| - 1])
  {
  }

  /** A last mapping that writes no label leaves the labels of the others. */
  lemma LastLabelSkipped(issue: JiraIssue, ms: seq<FieldMapping>, written: Option<Value>)
    requires |ms| > 0 && LabelWrite(issue, ms[|ms| - 1]).None?
    requires LabelFromMappings(issue, ms[..|ms| - 1]) == written
    ensures LabelFromMappings(issue, ms) == written
  {
  }

  /** The hypotheses of `LabelsLastWriteWins`, carried to all but the last mapping. */
  lemma LaterLabelWritesOfFront(issue: JiraIssue, ms: seq<FieldMapping>, front: seq<FieldMapping>, j: nat)
    requires j < |ms| - 1 && front == ms[..|ms| - 1] && LabelWrite(issue, ms[j]).Some?
    requires forall k {:trigger LabelWrite(issue, ms[k])} :: j < k < |ms| ==> LabelWrite(issue, ms[k]).None?
    ensures LabelWrite(issue, ms[|ms| - 1]).None?
    ensures front[j] == ms[j]
    ensures forall k :: j < k < |front| ==> LabelWrite(issue, front[k]).None?
  {
    forall k | j < k < |front| ensures LabelWrite(issue, front[k]).None? {
      assert front[k] == ms[k];
    }
  }

  /** Without any label write the card gets no labels. */
  lemma {:induction false} NoLabelWrites(issue: JiraIssue, ms: seq<FieldMapping>)
    requires forall k :: 0 <= k < |ms| ==> LabelWrite(issue, ms[k]).None?
    ensures LabelFromMappings(issue, ms).None?
  {
    if ms != [] {
      var n := |ms| - 1;
      var front := ms[..n];
      forall k | 0 <= k < n ensures LabelWrite(issue, front[k]).None? {
        assert front[k] == ms[k];
      }
      NoLabelWrites(issue, front);
    }
  }

  /** A label write comes exactly from a mapping onto `labels` whose resolved
      value is truthy, and writes that value. */
  lemma LabelWriteMeans(issue: JiraIssue, m: FieldMapping)
    ensures LabelWrite(issue, m).Some? <==>
            m.trelloField == "labels" && Truthy(Resolve(Obj(issue.fields), Split(m.jiraField, '.')))
    ensures LabelWrite(issue, m).Some? ==> LabelWrite(issue, m).value == Resolve(Obj(issue.fields), Split(m.jiraField, '.'))
  {
  }

  // ---------------------------------------------------------------------------
  // Trello to Jira: the backlink and the due date

  lemma {:induction false} TrimEndAppendedWhitespace(d: string, w: string)
    requires forall k :: 0 <= k < |w| ==> IsWhitespace(w[k])
    ensures TrimEnd(d + w) == TrimEnd(d)
    decreases |w|
  {
    if w == [] {
      assert d + w == d;
    } else {
      var w' := w[..|w| - 1];
      assert (d + w)[..|d + w| - 1] == d + w';
      TrimEndAppendedWhitespace(d, w');
    }
  }

  /** Trimming leaves a text alone when it neither starts nor ends with
      whitespace, and strips whitespace appended to it. */
  lemma TrimRestores(d: string, w: string)
    requires d != [] && !IsWhitespace(d[0]) && !IsWhitespace(d[|d| - 1])
    requires forall k :: 0 <= k < |w| ==> IsWhitespace(w[k])
    ensures Trim(d + w) == d
  {
    TrimEndAppendedWhitespace(d, w);
  }

  /** The leftmost match is at `p` when one is there and none is before it. */
  lemma {:induction false} FirstBacklinkIs(s: string, i: nat, p: nat)
    requires i <= p && BacklinkAt(s, p)
    requires forall j: nat :: j < p ==> !BacklinkAt(s, j)
    ensures FirstBacklinkFrom(s, i) == Some(p)
    decreases p - i
  {
    if i < p {
      FirstBacklinkIs(s, i + 1, p);
    }
  }

  /** In a backlinked description the only place the backlink pattern can
      match is the appended backlink: before it sit two newlines, which
      neither the opening text nor `.` can cross. */
  lemma BacklinkIsFirstMatch(d: string, key: string)
    requires forall k :: 0 <= k < |key| ==> !IsLineTerminator(key[k])
    ensures FirstBacklinkFrom(Backlinked(d, key), 0) == Some(|d| + 2)
  {
    var s := Backlinked(d, key);
    var p := |d| + 2;
    assert s == d + "\n\n" + BacklinkOpen + " " + key + "]";
    assert s[|d|] == '\n' && s[|d| + 1] == '\n';
    assert s[p..p + |BacklinkOpen|] == BacklinkOpen;
    assert forall k :: p + |BacklinkOpen| <= k < |s| - 1 ==> s[k] == (" " + key)[k - p - |BacklinkOpen|];
    assert BacklinkAt(s, p);
    forall j: nat | j < p ensures !BacklinkAt(s, j) {
      if j + |BacklinkOpen| <= |d| {
        assert IsLineTerminator(s[|d|]);
      } else if j <= |d| {
        assert s[j..j + |BacklinkOpen|][|d| - j] == s[|d|];
      } else {
        assert s[j..j + |BacklinkOpen|][0] == s[j];
      }
    }
    FirstBacklinkIs(s, 0, p);
  }

  /** The description round trip on text: stripping the backlink from a
      backlinked description and trimming gives the description back, when
      it neither starts nor ends with whitespace and the key has no line
      terminator. */
  lemma DescriptionTextRoundTrip(d: string, key: string)
    requires d != [] && !IsWhitespace(d[0]) && !IsWhitespace(d[|d| - 1])
    requires forall k :: 0 <= k < |key| ==> !IsLineTerminator(key[k])
    ensures Trim(StripBacklink(Backlinked(d, key))) == d
  {
    BacklinkIsFirstMatch(d, key);
    var s := Backlinked(d, key);
    assert s[..|d| + 2] == d + "\n\n";
    TrimRestores(d, "\n\n");
  }

  /** The due date kept is the part before the first `T`: a date followed by
      a time gives the date, and cutting again changes nothing. */
  lemma DatePartOfDateTime(date: string, time: string)
    requires 'T' !in date
    ensures DatePart(date + "T" + time) == date
    ensures DatePart(DatePart(date + "T" + time)) == DatePart(date + "T" + time)
  {
    var s := date + "T" + time;
    assert s == date + ['T'] + time;
    IndexOfCharAfter(date, 'T', time);
    assert s[..|date|] == date;
  }

  lemma DatePartIdempotent(due: string)
    ensures 'T' !in DatePart(due)
    ensures DatePart(DatePart(due)) == DatePart(due)
  {
    assert IndexOfChar(DatePart(due), 'T').None?;
  }

  // ---------------------------------------------------------------------------
  // Trello to Jira: the field-mapping loop

  /** A key no mapping writes keeps its base value. */
  lemma {:induction false} OverwriteUntouched(base: map<string, Value>, card: TrelloCard, ms: seq<FieldMapping>, k: string)
    requires forall j :: 0 <= j < |ms| && ms[j].jiraField == k ==> FieldWrite(card, ms[j]).None?
    ensures Get(OverwriteFields(base, card, ms), k) == Get(base, k)
  {
    if ms != [] {
      var n := |ms| - 1;
      assert forall j :: 0 <= j < n ==> ms[..n][j] == ms[j];
      OverwriteUntouched(base, card, ms[..n], k);
    }
  }

  /** A key holds the raw value of the last mapping that writes it. */
  lemma {:induction false} OverwriteLastWins(base: map<string, Value>, card: TrelloCard, ms: seq<FieldMapping>, k: string, j: nat)
    requires j < |ms| && ms[j].jiraField == k && FieldWrite(card, ms[j]).Some?
    requires forall l :: j < l < |ms| && ms[l].jiraField == k ==> FieldWrite(card, ms[l]).None?
    ensures Get(OverwriteFields(base, card, ms), k) == FieldWrite(card, ms[j])
  {
    var n := |ms| - 1;
    assert forall l :: 0 <= l < n ==> ms[..n][l] == ms[l];
    if j < n {
      OverwriteLastWins(base, card, ms[..n], k, j);
    }
  }

  /** What a mapping writes: the truthy raw Trello value of its field, the
      first label's name for `labels` when the card has a label, and the
      raw (truthy, even when empty) `labels` array when it has none. */
  lemma FieldWriteMeans(card: TrelloCard, m: FieldMapping)
    requires IsTrelloCard(card)
    ensures FieldWrite(card, m).Some? ==> Truthy(FieldWrite(card, m).value)
    ensures m.trelloField != "labels" ==>
            FieldWrite(card, m) == if m.trelloField in card.props && Truthy(card.props[m.trelloField])
                                   then Some(card.props[m.trelloField]) else None
    ensures m.trelloField == "labels" && "labels" in card.props && card.props["labels"].items != [] ==>
            var first := card.props["labels"].items[0];
            FieldWrite(card, m) == if "name" in first.props && Truthy(first.props["name"])
                                   then Some(first.props["name"]) else None
    ensures m.trelloField == "labels" && !("labels" in card.props && card.props["labels"].items != []) ==>
            FieldWrite(card, m) == if "labels" in card.props && Truthy(card.props["labels"])
                                   then Some(card.props["labels"]) else None
  {
    if m.trelloField == "labels" && "labels" in card.props && card.props["labels"].items != [] {
      assert card.props["labels"].items[0] in card.props["labels"].items;
    }
  }

  /** A card with an empty `labels` array writes that empty array: an
      array is truthy however short. */
  lemma EmptyLabelsWritten(card: TrelloCard, m: FieldMapping)
    requires IsTrelloCard(card) && m.trelloField == "labels"
    requires "labels" in card.props && card.props["labels"] == Arr([])
    ensures FieldWrite(card, m) == Some(Arr([]))
  {
    FieldWriteMeans(card, m);
  }

  /** The description round trip through both mappings: a card whose `desc`
      is what `mapJiraToTrello` wrote comes back with the issue's original
      description, provided no field mapping targets `description`. */
  lemma DescriptionRoundTrip(cfg: Config, issue: JiraIssue, lists: seq<TrelloList>, card: TrelloCard)
    requires IsJiraIssue(issue) && IsTrelloCard(card)
    requires "description" in issue.fields && issue.fields["description"].Str?
    requires var d := issue.fields["description"].s; d != [] && !IsWhitespace(d[0]) && !IsWhitespace(d[|d| - 1])
    requires forall k :: 0 <= k < |issue.key| ==> !IsLineTerminator(issue.key[k])
    requires "desc" in card.props && card.props["desc"] == Str(Backlinked(issue.fields["description"].s, issue.key))
    requires forall j :: 0 <= j < |cfg.fieldMappings| ==> cfg.fieldMappings[j].jiraField != "description"
    ensures Get(TrelloToJira(cfg, card, lists), "description") == Some(issue.fields["description"])
  {
    var d := issue.fields["description"].s;
    DescriptionTextRoundTrip(d, issue.key);
    var base := BaseIssueFields(cfg.statusMappings, card, lists);
    assert Get(base, "description") == Some(Str(d));
    OverwriteUntouched(base, card, cfg.fieldMappings, "description");
  }

  /** With the default field mappings the loop undoes the careful base
      translation: the raw `desc`, backlink included, replaces the stripped
      description. */
  lemma DefaultMappingsRawDescription(cfg: Config, card: TrelloCard, lists: seq<TrelloList>)
    requires IsTrelloCard(card) && cfg.fieldMappings == DefaultFieldMappings()
    requires "desc" in card.props && Truthy(card.props["desc"])
    ensures Get(TrelloToJira(cfg, card, lists), "description") == Some(card.props["desc"])
  {
    OverwriteLastWins(BaseIssueFields(cfg.statusMappings, card, lists), card, cfg.fieldMappings, "description", 1);
  }

  /** With the default field mappings the untruncated `due`, time included,
      replaces the date part. */
  lemma DefaultMappingsRawDueDate(cfg: Config, card: TrelloCard, lists: seq<TrelloList>)
    requires IsTrelloCard(card) && cfg.fieldMappings == DefaultFieldMappings()
    requires "due" in card.props && Truthy(card.props["due"])
    ensures Get(TrelloToJira(cfg, card, lists), "duedate") == Some(card.props["due"])
  {
    OverwriteLastWins(BaseIssueFields(cfg.statusMappings, card, lists), card, cfg.fieldMappings, "duedate", 2);
  }

  /** With the default field mappings the card's member ids land under the
      literal key `assignee.displayName`, not inside `assignee`. */
  lemma DefaultMappingsFlatAssignee(cfg: Config, card: TrelloCard, lists: seq<TrelloList>)
    requires IsTrelloCard(card) && cfg.fieldMappings == DefaultFieldMappings()
    requires "idMembers" in card.props && Truthy(card.props["idMembers"])
    ensures Get(TrelloToJira(cfg, card, lists), "assignee.displayName") == Some(card.props["idMembers"])
  {
    OverwriteLastWins(BaseIssueFields(cfg.statusMappings, card, lists), card, cfg.fieldMappings, "assignee.displayName", 3);
  }

  /** With the default field mappings the summary is the card's name. */
  lemma DefaultMappingsSummary(cfg: Config, card: TrelloCard, lists: seq<TrelloList>)
    requires IsTrelloCard(card) && cfg.fieldMappings == DefaultFieldMappings()
    ensures Get(TrelloToJira(cfg, card, lists), "summary") == Some(card.props["name"])
  {
    var base := BaseIssueFields(cfg.statusMappings, card, lists);
    if Truthy(card.props["name"]) {
      OverwriteLastWins(base, card, cfg.fieldMappings, "summary", 0);
    } else {
      OverwriteUntouched(base, card, cfg.fieldMappings, "summary");
    }
  }

  /** The status comes back only when a list with exactly the card's
      `idList` exists and a status mapping names that list; it is then the
      Jira status of the first such mapping. */
  lemma StatusAssignment(cfg: Config, card: TrelloCard, lists: seq<TrelloList>)
    requires IsTrelloCard(card)
    requires forall j :: 0 <= j < |cfg.fieldMappings| ==> cfg.fieldMappings[j].jiraField != "status"
    ensures var fields := TrelloToJira(cfg, card, lists);
            var ms := cfg.statusMappings;
            Get(fields, "status").Some? <==>
              exists l, i :: l in lists && l.id == card.props["idList"].s && 0 <= i < |ms| &&
                             StatusMatches(ms[i], l.name, Trello) &&
                             FindListById(lists, card.props["idList"].s) == Some(l)
    ensures var fields := TrelloToJira(cfg, card, lists);
            var ms := cfg.statusMappings;
            Get(fields, "status").Some? ==>
              exists l, i :: FindListById(lists, card.props["idList"].s) == Some(l) && 0 <= i < |ms| &&
                             StatusMatches(ms[i], l.name, Trello) &&
                             (forall k :: 0 <= k < i ==> !StatusMatches(ms[k], l.name, Trello)) &&
                             fields["status"] == Obj(map["name" := Str(ms[i].jiraStatus)])
  {
    var base := BaseIssueFields(cfg.statusMappings, card, lists);
    OverwriteUntouched(base, card, cfg.fieldMappings, "status");
  }

  // ---------------------------------------------------------------------------
  // Default tables

  lemma InProgressMapsToDoing(ms: seq<StatusMapping>, status: string)
    requires ms == DefaultStatusMappings() && status == "In Progress"
    ensures GetStatusMapping(ms, status, Jira) == Some(StatusMapping("In Progress", "Doing"))
  {
    assert !StatusMatches(ms[0], status, Jira) by {
      assert |Lower(ms[0].jiraStatus)| != |Lower(status)|;
    }
    StatusMappingIsFirstMatch(ms, status, Jira, 1);
  }

  lemma DoingIsSecondList(lists: seq<TrelloList>, name: string)
    requires lists == [TrelloList("c1", "To Do"), TrelloList("c2", "Doing")] && name == "Doing"
    ensures FindListByName(lists, name) == Some(lists[1])
  {
    assert !SameIgnoringCase(lists[0].name, name) by {
      LowerAt(lists[0].name, 0);
      LowerAt(name, 0);
    }
    ListIsFirstMatch(lists, name, 1);
  }

  /** The default status ladder sends an "In Progress" issue to the list
      named "Doing", ignoring case, and the card keeps the summary. */
  lemma DefaultLadderScenario(issue: JiraIssue, lists: seq<TrelloList>)
    requires IsJiraIssue(issue)
    requires Summary(issue) == "Fix bug" && StatusName(issue) == "In Progress"
    requires lists == [TrelloList("c1", "To Do"), TrelloList("c2", "Doing")]
    ensures var card := JiraToTrello(Config("", DefaultFieldMappings(), DefaultStatusMappings()), issue, lists);
            card.name == "Fix bug" && card.idList == Some("c2")
  {
    InProgressMapsToDoing(DefaultStatusMappings(), StatusName(issue));
    DoingIsSecondList(lists, "Doing");
  }
}
